/** The worker's PAM conversation callback and who owns its replies (src/embedder/lock/pam.rs:218-323). */
module Converse {
  import opened Options
  import opened Authentication

  const PAM_SUCCESS := 0
  const PAM_BUF_ERR := 5
  const PAM_CONV_ERR := 19

  const PAM_PROMPT_ECHO_OFF := 1
  const PAM_PROMPT_ECHO_ON := 2
  const PAM_ERROR_MSG := 3
  const PAM_TEXT_INFO := 4

  type Ptr = nat

  datatype PamMessage = PamMessage(style: int, text: Option<string>)

  /** What the world does about one prompt: whether the loop's channel is open, the answer (none
      once the responder is dropped), and whether `malloc` succeeds. */
  datatype Exchange = Exchange(open: bool, answer: Option<string>, memory: bool)

  /** The C heap as far as the conversation uses it: what each live block holds, the freed blocks in
      order, and those freed while they still held something other than zeros. */
  class Memory {
    var live: map<Ptr, string>
    var freed: seq<Ptr>
    var leaked: set<Ptr>
    var next: Ptr

    ghost predicate Valid()
      reads this
    {
      && (forall p | p in live :: p < next)
      && (forall i | 0 <= i < |freed| :: freed[i] < next && freed[i] !in live)
      && (forall i, j | 0 <= i < j < |freed| :: freed[i] != freed[j])
    }

    constructor ()
      ensures Valid() && live == map[] && freed == [] && leaked == {}
    {
      live, freed, leaked, next := map[], [], {}, 0;
    }

    method Malloc(content: string) returns (p: Ptr)
      requires Valid()
      modifies this`live, this`next
      ensures Valid() && p == old(next) && next == p + 1
      ensures live == old(live)[p := content]
    {
      p := next;
      next := next + 1;
      live := live[p := content];
    }

    method Write(p: Ptr, content: string)
      requires Valid() && p in live
      modifies this`live
      ensures Valid() && live == old(live)[p := content]
    {
      live := live[p := content];
    }

    method Free(p: Ptr)
      requires Valid() && p in live
      modifies this`live, this`freed, this`leaked
      ensures Valid() && live == old(live) - {p}
      ensures freed == old(freed) + [p]
      ensures leaked == if Scrubbed(old(live)[p]) then old(leaked) else old(leaked) + {p}
    {
      freed := freed + [p];
      if !Scrubbed(live[p]) {
        leaked := leaked + {p};
      }
      live := live - {p};
    }
  }

  predicate IsPrompt(m: PamMessage) {
    m.style == PAM_PROMPT_ECHO_OFF || m.style == PAM_PROMPT_ECHO_ON
  }

  /** `strlen`: the bytes before the first NUL. */
  function Strlen(s: string): (n: nat)
    ensures n <= |s| && (forall i | 0 <= i < n :: s[i] != '\0') && (n < |s| ==> s[n] == '\0')
  {
    if s == [] || s[0] == '\0' then 0 else 1 + Strlen(s[1..])
  }

  predicate Scrubbed(s: string) {
    forall i | 0 <= i < |s| :: s[i] == '\0'
  }

  datatype Reply = Silent | Copied(text: string) | Refused(code: int)

  /** What becomes of one message. */
  function ReplyTo(m: PamMessage, x: Exchange): Reply {
    if IsPrompt(m) then
      if !x.open || x.answer.None? then Refused(PAM_CONV_ERR)
      else if '\0' in x.answer.value || !x.memory then Refused(PAM_BUF_ERR)
      else Copied(x.answer.value)
    else if m.style == PAM_ERROR_MSG || m.style == PAM_TEXT_INFO then Silent
    else Refused(PAM_CONV_ERR)
  }

  function EventOf(m: PamMessage): AuthEvent {
    var text := if m.text.Some? then m.text.value else "";
    if IsPrompt(m) then Prompt(text, m.style == PAM_PROMPT_ECHO_ON)
    else if m.style == PAM_ERROR_MSG then Error(text) else Info(text)
  }

  /** The first `n` slots as PAM reads them: a prompt's answer in the prompt's own slot, a null
      pointer everywhere else, and no block in two slots. */
  ghost predicate SlotsHold(slots: seq<Option<Ptr>>, n: nat, live: map<Ptr, string>,
                            messages: seq<PamMessage>, world: seq<Exchange>)
    requires n <= |slots| == |messages| == |world|
  {
    && (forall i | 0 <= i < n ::
          match ReplyTo(messages[i], world[i])
          case Copied(text) => slots[i].Some? && slots[i].value in live && live[slots[i].value] == text + ['\0']
          case _ => slots[i].None?)
    && (forall i, j | 0 <= i < j < n && slots[i].Some? && slots[j].Some? :: slots[i] != slots[j])
  }

  /** The replies in the first `n` slots, in slot order. */
  function Blocks(slots: seq<Option<Ptr>>, n: nat): seq<Ptr>
    requires n <= |slots|
  {
    if n == 0 then []
    else if slots[n - 1].Some? then Blocks(slots, n - 1) + [slots[n - 1].value]
    else Blocks(slots, n - 1)
  }

  lemma {:induction false} BlocksAre(slots: seq<Option<Ptr>>, n: nat, p: Ptr)
    requires n <= |slots|
    ensures p in Blocks(slots, n) <==> exists i | 0 <= i < n :: slots[i] == Some(p)
  {
    if n > 0 {
      BlocksAre(slots, n - 1, p);
    }
  }

  /** Only the first `n` slots matter. */
  lemma {:induction false} BlocksOfPrefix(first: seq<Option<Ptr>>, second: seq<Option<Ptr>>, n: nat)
    requires n <= |first| && n <= |second| && forall i | 0 <= i < n :: first[i] == second[i]
    ensures Blocks(first, n) == Blocks(second, n)
  {
    if n > 0 {
      BlocksOfPrefix(first, second, n - 1);
    }
  }

  /** Empty slots at the end add nothing. */
  lemma {:induction false} BlocksOfEmptyTail(slots: seq<Option<Ptr>>, n: nat, m: nat)
    requires n <= m <= |slots| && forall i | n <= i < m :: slots[i].None?
    ensures Blocks(slots, m) == Blocks(slots, n)
    decreases m
  {
    if n < m {
      BlocksOfEmptyTail(slots, n, m - 1);
    }
  }

  /** `wipe`: overwrites a buffer, byte by byte. */
  method Wipe(bytes: array<char>)
    modifies bytes
    ensures Scrubbed(bytes[..])
  {
    var i := 0;
    while i < bytes.Length
      invariant 0 <= i <= bytes.Length
      invariant forall j | 0 <= j < i :: bytes[j] == '\0'
    {
      bytes[i] := '\0';
      i := i + 1;
    }
  }

  /** Copies a secret for PAM. A secret with a NUL inside is refused, not truncated. The buffer the
      secret came in holds nothing but zeros afterwards, copied or not. */
  method SecretToC(memory: Memory, secret: array<char>, ok: bool) returns (copy: Option<Ptr>)
    requires memory.Valid()
    modifies memory`live, memory`next, secret
    ensures memory.Valid()
    ensures copy.Some? <==> '\0' !in old(secret[..]) && ok
    ensures copy.None? ==> memory.live == old(memory.live) && memory.next == old(memory.next)
    ensures copy.Some? ==> copy.value == old(memory.next) && memory.next == old(memory.next) + 1
    ensures copy.Some? ==> memory.live == old(memory.live)[copy.value := old(secret[..]) + ['\0']]
    ensures Scrubbed(secret[..])
  {
    copy := None;
    if '\0' !in secret[..] && ok {
      var p := memory.Malloc(secret[..] + ['\0']);
      copy := Some(p);
    }
    Wipe(secret);
  }

  /** Overwrites the reply up to its terminator, byte by byte. */
  method WipeReply(memory: Memory, p: Ptr)
    requires memory.Valid() && p in memory.live
    modifies memory`live
    ensures memory.Valid() && memory.live.Keys == old(memory.live.Keys)
    ensures forall q | q in memory.live && q != p :: memory.live[q] == old(memory.live)[q]
    ensures |memory.live[p]| == |old(memory.live)[p]|
    ensures forall i | 0 <= i < |memory.live[p]| ::
      memory.live[p][i] == if i < Strlen(old(memory.live)[p]) then '\0' else old(memory.live)[p][i]
  {
    var length := Strlen(memory.live[p]);
    var offset := 0;
    while offset < length
      invariant 0 <= offset <= length
      invariant memory.Valid() && memory.live.Keys == old(memory.live.Keys)
      invariant forall q | q in memory.live && q != p :: memory.live[q] == old(memory.live)[q]
      invariant |memory.live[p]| == |old(memory.live)[p]|
      invariant forall i | 0 <= i < |memory.live[p]| ::
        memory.live[p][i] == if i < offset then '\0' else old(memory.live)[p][i]
    {
      memory.Write(p, memory.live[p][offset := '\0']);
      offset := offset + 1;
    }
  }

  /** A reply block: a secret and its terminator, with no NUL before it. */
  ghost predicate HoldsReply(memory: Memory, p: Ptr)
    reads memory
  {
    p in memory.live && |memory.live[p]| > 0 && Strlen(memory.live[p]) == |memory.live[p]| - 1
  }

  lemma {:induction false} StrlenOfCopy(secret: string)
    requires '\0' !in secret
    ensures Strlen(secret + ['\0']) == |secret|
  {
    if secret != [] {
      StrlenOfCopy(secret[1..]);
      assert (secret + ['\0'])[1..] == secret[1..] + ['\0'];
    }
  }

  function AsSet(ps: seq<Ptr>): set<Ptr> {
    set p | p in ps
  }

  /** Frees every reply and then the array itself, each exactly once, the replies wiped first. */
  method FreeResponses(memory: Memory, slots: array<Option<Ptr>>, block: Ptr)
    requires memory.Valid()
    requires block in memory.live && Scrubbed(memory.live[block]) && Some(block) !in slots[..]
    requires forall i | 0 <= i < slots.Length && slots[i].Some? :: HoldsReply(memory, slots[i].value)
    requires forall i, j | 0 <= i < j < slots.Length && slots[i].Some? && slots[j].Some? :: slots[i] != slots[j]
    modifies memory`live, memory`freed, memory`leaked
    ensures memory.Valid()
    ensures memory.live == old(memory.live) - AsSet(Blocks(slots[..], slots.Length)) - {block}
    ensures memory.freed == old(memory.freed) + Blocks(slots[..], slots.Length) + [block]
    ensures memory.leaked == old(memory.leaked)
  {
    var index := 0;
    while index < slots.Length
      invariant 0 <= index <= slots.Length
      invariant memory.Valid() && memory.leaked == old(memory.leaked)
      invariant memory.live == old(memory.live) - AsSet(Blocks(slots[..], index))
      invariant memory.freed == old(memory.freed) + Blocks(slots[..], index)
    {
      if slots[index].Some? {
        var reply := slots[index].value;
        BlocksAre(slots[..], index, reply);
        assert old(HoldsReply(memory, reply));
        ghost var before := memory.live;
        WipeReply(memory, reply);
        assert Scrubbed(memory.live[reply]) by {
          assert memory.live[reply][|memory.live[reply]| - 1] == before[reply][|before[reply]| - 1] == '\0';
        }
        memory.Free(reply);
        assert memory.live == before - {reply};
      }
      index := index + 1;
    }
    BlocksAre(slots[..], slots.Length, block);
    memory.Free(block);
  }

  /** What `converse` returns: zero with every reply, or the code of the first refused message. */
  function StatusFrom(messages: seq<PamMessage>, world: seq<Exchange>, from: nat): int
    requires |messages| == |world| && from <= |messages|
    decreases |messages| - from
  {
    if from == |messages| then PAM_SUCCESS
    else
      var reply := ReplyTo(messages[from], world[from]);
      if reply.Refused? then reply.code else StatusFrom(messages, world, from + 1)
  }

  /** The conversation succeeds exactly when no message is refused, and it ends with the code of the
      first one that is. */
  lemma {:induction false} StatusIsFirstRefusal(messages: seq<PamMessage>, world: seq<Exchange>, from: nat)
    requires |messages| == |world| && from <= |messages|
    ensures var code := StatusFrom(messages, world, from);
      if code == PAM_SUCCESS then forall i | from <= i < |messages| :: !ReplyTo(messages[i], world[i]).Refused?
      else exists i | from <= i < |messages| ::
        && ReplyTo(messages[i], world[i]) == Refused(code)
        && forall j | from <= j < i :: !ReplyTo(messages[j], world[j]).Refused?
    decreases |messages| - from
  {
    if from < |messages| && !ReplyTo(messages[from], world[from]).Refused? {
      StatusIsFirstRefusal(messages, world, from + 1);
    }
  }

  /** The state after `n` messages: the replies so far are in their slots, and the heap holds the
      array, the replies and what was there before, nothing else. */
  ghost predicate Gathered(slots: seq<Option<Ptr>>, n: nat, messages: seq<PamMessage>, world: seq<Exchange>,
                           before: map<Ptr, string>, block: Ptr, live: map<Ptr, string>, next: Ptr)
  {
    && n <= |slots| == |messages| == |world|
    && SlotsHold(slots, n, live, messages, world)
    && (forall i | 0 <= i < n && slots[i].Some? :: block < slots[i].value < next)
    && |Blocks(slots, n)| == next - block - 1
    && live.Keys == before.Keys + {block} + AsSet(Blocks(slots, n))
    && (forall p | p in before :: p < block && live[p] == before[p])
    && block in live && live[block] == ""
  }

  /** One more message that needs no reply, or whose reply was just allocated. */
  lemma GatheredNext(slots: seq<Option<Ptr>>, n: nat, messages: seq<PamMessage>, world: seq<Exchange>,
                     before: map<Ptr, string>, block: Ptr, live: map<Ptr, string>, next: Ptr)
    requires Gathered(slots, n, messages, world, before, block, live, next) && n < |slots|
    ensures var reply := ReplyTo(messages[n], world[n]);
      && (reply.Silent? ==> Gathered(slots[n := None], n + 1, messages, world, before, block, live, next))
      && (reply.Copied? ==> Gathered(slots[n := Some(next)], n + 1, messages, world, before, block,
                                     live[next := reply.text + ['\0']], next + 1))
  {
    var reply := ReplyTo(messages[n], world[n]);
    var all := slots[n := if reply.Copied? then Some(next) else None];
    BlocksOfPrefix(slots, all, n);
    if reply.Copied? {
      assert Blocks(all, n + 1) == Blocks(slots, n) + [next];
      assert AsSet(Blocks(all, n + 1)) == AsSet(Blocks(slots, n)) + {next};
    }
  }

  /** The reply to one message, or the code the conversation ends with. */
  method ReplyOrFail(memory: Memory, message: PamMessage, x: Exchange)
    returns (reply: Option<Ptr>, failure: int, told: seq<AuthEvent>)
    requires memory.Valid()
    modifies memory`live, memory`next
    ensures memory.Valid()
    ensures failure == (if ReplyTo(message, x).Refused? then ReplyTo(message, x).code else PAM_SUCCESS)
    ensures if ReplyTo(message, x).Copied? then
              && reply == Some(old(memory.next)) && memory.next == old(memory.next) + 1
              && memory.live == old(memory.live)[old(memory.next) := ReplyTo(message, x).text + ['\0']]
            else
              reply.None? && memory.live == old(memory.live) && memory.next == old(memory.next)
    ensures told == [EventOf(message)] || (told == [] && ReplyTo(message, x).Refused?)
  {
    reply, failure, told := None, PAM_SUCCESS, [EventOf(message)];
    if IsPrompt(message) {
      if !x.open || x.answer.None? {
        failure := PAM_CONV_ERR;
      } else {
        var secret := new char[|x.answer.value|](i requires 0 <= i < |x.answer.value| => x.answer.value[i]);
        assert secret[..] == x.answer.value;
        reply := SecretToC(memory, secret, x.memory);
        if reply.None? {
          failure := PAM_BUF_ERR;
        }
      }
    } else if message.style != PAM_ERROR_MSG && message.style != PAM_TEXT_INFO {
      failure := PAM_CONV_ERR;
      told := [];
    }
  }

  /** Giving up returns the heap to what it was. */
  method Abandon(memory: Memory, slots: array<Option<Ptr>>, block: Ptr, index: nat,
                 ghost messages: seq<PamMessage>, ghost world: seq<Exchange>, ghost before: map<Ptr, string>)
    requires memory.Valid()
    requires Gathered(slots[..], index, messages, world, before, block, memory.live, memory.next)
    requires forall i | index <= i < slots.Length :: slots[i].None?
    modifies memory`live, memory`freed, memory`leaked
    ensures memory.Valid() && memory.live == before && memory.leaked == old(memory.leaked)
    ensures old(memory.freed) <= memory.freed && |memory.freed| - |old(memory.freed)| == memory.next - block
    ensures forall i | |old(memory.freed)| <= i < |memory.freed| :: block <= memory.freed[i] < memory.next
  {
    BlocksOfEmptyTail(slots[..], index, slots.Length);
    forall i | 0 <= i < slots.Length && slots[i].Some? ensures HoldsReply(memory, slots[i].value) {
      StrlenOfCopy(ReplyTo(messages[i], world[i]).text);
    }
    ghost var replies := Blocks(slots[..], slots.Length);
    forall p | p in replies ensures block < p < memory.next {
      BlocksAre(slots[..], slots.Length, p);
    }
    FreeResponses(memory, slots, block);
    assert memory.live.Keys == before.Keys;
  }

  /** The loop is told of the messages in order. */
  ghost predicate Told(told: seq<AuthEvent>, messages: seq<PamMessage>) {
    |told| <= |messages| && forall i | 0 <= i < |told| :: told[i] == EventOf(messages[i])
  }

  lemma ToldNext(told: seq<AuthEvent>, event: seq<AuthEvent>, messages: seq<PamMessage>)
    requires Told(told, messages) && |told| < |messages|
    requires event == [] || event == [EventOf(messages[|told|])]
    ensures Told(told + event, messages)
  {
  }

  /** One message of the loop: its reply goes into its own slot. */
  method TakeMessage(messages: seq<PamMessage>, world: seq<Exchange>, memory: Memory, slots: array<Option<Ptr>>,
                     block: Ptr, ghost before: map<Ptr, string>, index: nat)
    returns (failure: int, told: seq<AuthEvent>)
    requires memory.Valid() && index < slots.Length
    requires Gathered(slots[..], index, messages, world, before, block, memory.live, memory.next)
    modifies memory`live, memory`next, slots
    ensures memory.Valid()
    ensures failure == if ReplyTo(messages[index], world[index]).Refused? then ReplyTo(messages[index], world[index]).code
                       else PAM_SUCCESS
    ensures forall i | 0 <= i < slots.Length && (i != index || failure != PAM_SUCCESS) :: slots[i] == old(slots[i])
    ensures Gathered(slots[..], if failure == PAM_SUCCESS then index + 1 else index, messages, world, before, block,
                     memory.live, memory.next)
    ensures told == [EventOf(messages[index])] || (told == [] && failure != PAM_SUCCESS)
    ensures StatusFrom(messages, world, index) ==
      if failure != PAM_SUCCESS then failure else StatusFrom(messages, world, index + 1)
  {
    ghost var filled := slots[..];
    GatheredNext(filled, index, messages, world, before, block, memory.live, memory.next);
    var reply;
    reply, failure, told := ReplyOrFail(memory, messages[index], world[index]);
    if failure == PAM_SUCCESS {
      slots[index] := reply;
      assert slots[..] == filled[index := reply];
    } else {
      assert slots[..] == filled;
    }
  }

  /** The loop over the messages, up to the first that ends the conversation. */
  method Gather(messages: seq<PamMessage>, world: seq<Exchange>, memory: Memory, slots: array<Option<Ptr>>,
                block: Ptr, ghost before: map<Ptr, string>)
    returns (failure: int, index: nat, told: seq<AuthEvent>)
    requires memory.Valid()
    requires forall i | 0 <= i < slots.Length :: slots[i].None?
    requires Gathered(slots[..], 0, messages, world, before, block, memory.live, memory.next)
    modifies memory`live, memory`next, slots
    ensures memory.Valid()
    ensures failure == StatusFrom(messages, world, 0)
    ensures index <= slots.Length && (failure == PAM_SUCCESS ==> index == slots.Length)
    ensures Gathered(slots[..], index, messages, world, before, block, memory.live, memory.next)
    ensures forall i | index <= i < slots.Length :: slots[i].None?
    ensures index <= |told| && Told(told, messages)
  {
    index, told, failure := 0, [], PAM_SUCCESS;
    while index < slots.Length
      invariant 0 <= index <= slots.Length
      invariant memory.Valid()
      invariant failure == PAM_SUCCESS && StatusFrom(messages, world, 0) == StatusFrom(messages, world, index)
      invariant forall i | index <= i < slots.Length :: slots[i].None?
      invariant Gathered(slots[..], index, messages, world, before, block, memory.live, memory.next)
      invariant |told| == index && Told(told, messages)
    {
      var event;
      failure, event := TakeMessage(messages, world, memory, slots, block, before, index);
      ToldNext(told, event, messages);
      told := told + event;
      if failure != PAM_SUCCESS {
        return;
      }
      index := index + 1;
    }
  }

  /** The conversation callback. `world[i]` is what happens to message `i` if it is reached, and
      `arrayMemory` whether `calloc` succeeds. `resp` is what PAM receives: the array and its block. */
  method Converse(numMsg: int, pointers: bool, messages: seq<PamMessage>, world: seq<Exchange>, arrayMemory: bool,
                  memory: Memory)
    returns (status: int, resp: Option<(array<Option<Ptr>>, Ptr)>, told: seq<AuthEvent>)
    requires memory.Valid()
    requires numMsg > 0 && pointers ==> |messages| == |world| == numMsg
    modifies memory
    ensures memory.Valid()
    ensures status == if numMsg <= 0 || !pointers then PAM_CONV_ERR
                      else if !arrayMemory then PAM_BUF_ERR
                      else StatusFrom(messages, world, 0)
    ensures resp.Some? <==> status == PAM_SUCCESS
    // Handed over: each answer in its own message's slot, nothing freed, nothing else allocated.
    ensures resp.Some? ==>
      && Gathered(resp.value.0[..], numMsg, messages, world, old(memory.live), resp.value.1, memory.live, memory.next)
      && memory.freed == old(memory.freed)
    // Not handed over: everything that was allocated was freed, once, and no answer was left behind.
    ensures resp.None? ==>
      && memory.live == old(memory.live)
      && memory.leaked == old(memory.leaked)
      && old(memory.freed) <= memory.freed
      && |memory.freed| - |old(memory.freed)| == memory.next - old(memory.next)
      && forall i | |old(memory.freed)| <= i < |memory.freed| :: old(memory.next) <= memory.freed[i] < memory.next
    // The loop is told of the messages in order, up to the one that ended the conversation.
    ensures Told(told, messages)
    ensures resp.Some? ==> |told| == |messages|
  {
    told := [];
    if numMsg <= 0 || !pointers {
      return PAM_CONV_ERR, None, told;
    }
    if !arrayMemory {
      return PAM_BUF_ERR, None, told;
    }
    var block := memory.Malloc("");
    var slots := new Option<Ptr>[numMsg](_ => None);
    var index: nat;
    status, index, told := Gather(messages, world, memory, slots, block, old(memory.live));
    if status != PAM_SUCCESS {
      Abandon(memory, slots, block, index, messages, world, old(memory.live));
      return status, None, told;
    }
    return PAM_SUCCESS, Some((slots, block)), told;
  }

  /** A prompt can be answered: the loop is there, an answer comes, it holds no NUL and there is memory
      for its copy. */
  predicate Answerable(x: Exchange) {
    x.open && x.answer.Some? && '\0' !in x.answer.value && x.memory
  }

  /** The conversation succeeds exactly when every message has one of the four styles and every prompt
      can be answered. */
  lemma {:induction false} ConversationSucceedsExactly(messages: seq<PamMessage>, world: seq<Exchange>)
    requires |messages| == |world|
    ensures StatusFrom(messages, world, 0) == PAM_SUCCESS <==> forall i | 0 <= i < |messages| ::
      && messages[i].style in {PAM_PROMPT_ECHO_OFF, PAM_PROMPT_ECHO_ON, PAM_ERROR_MSG, PAM_TEXT_INFO}
      && (messages[i].style in {PAM_PROMPT_ECHO_OFF, PAM_PROMPT_ECHO_ON} ==> Answerable(world[i]))
  {
    StatusIsFirstRefusal(messages, world, 0);
  }

  /** What the loop is told of a message: a prompt with its echo flag and text, an error, or a notice. */
  lemma {:induction false} ToldInWords(told: seq<AuthEvent>, messages: seq<PamMessage>, i: nat)
    requires Told(told, messages) && i < |told|
    ensures var text := if messages[i].text.Some? then messages[i].text.value else "";
      && (messages[i].style == PAM_PROMPT_ECHO_ON ==> told[i] == Prompt(text, true))
      && (messages[i].style == PAM_PROMPT_ECHO_OFF ==> told[i] == Prompt(text, false))
      && (messages[i].style == PAM_ERROR_MSG ==> told[i] == Error(text))
      && (messages[i].style == PAM_TEXT_INFO ==> told[i] == Info(text))
  {
  }

  /** The reply in a slot is the answer that was typed for that prompt, with its terminator, and nothing
      else has one. */
  lemma {:induction false} RepliesInWords(slots: seq<Option<Ptr>>, live: map<Ptr, string>,
                                          messages: seq<PamMessage>, world: seq<Exchange>, i: nat)
    requires |slots| == |messages| == |world| && SlotsHold(slots, |slots|, live, messages, world) && i < |slots|
    requires StatusFrom(messages, world, 0) == PAM_SUCCESS
    ensures if messages[i].style in {PAM_PROMPT_ECHO_OFF, PAM_PROMPT_ECHO_ON} then
              world[i].answer.Some? && slots[i].Some? && slots[i].value in live
              && live[slots[i].value] == world[i].answer.value + ['\0']
            else slots[i].None?
  {
    ConversationSucceedsExactly(messages, world);
  }
}
