/** The user's environment variables applied to the process (src/embedder/state.rs:364-421). */
module EnvironmentVariables {
  import opened Options

  type Environment = map<string, string>

  const SESSION_DERIVED: set<string> := {"WAYLAND_DISPLAY", "DISPLAY"}

  const BUILTIN_DEFAULTS: map<string, string> :=
    map["XDG_CURRENT_DESKTOP" := "veshell", "DESKTOP_SESSION" := "gnome", "XDG_SESSION_TYPE" := "wayland",
        "GDK_BACKEND" := "wayland", "QT_QPA_PLATFORM" := "wayland"]

  predicate IsAlphabetic(c: char) {
    'a' <= c <= 'z' || 'A' <= c <= 'Z'
  }

  predicate IsAlphanumeric(c: char) {
    IsAlphabetic(c) || '0' <= c <= '9'
  }

  /** A portable POSIX name. */
  predicate IsValidName(name: string) {
    && name != []
    && (name[0] == '_' || IsAlphabetic(name[0]))
    && forall i | 1 <= i < |name| :: name[i] == '_' || IsAlphanumeric(name[i])
  }

  /** The names of a settings file that are applied at all. */
  function Accepted(settings: Environment): set<string> {
    set name | name in settings && IsValidName(name) && name !in SESSION_DERIVED
  }

  function Lookup(env: Environment, name: string): Option<string> {
    if name in env then Some(env[name]) else None
  }

  /** What a name that was applied once should hold under the given settings. */
  function Desired(settings: Environment, name: string): Option<string> {
    if name in Accepted(settings) then Some(settings[name]) else Lookup(BUILTIN_DEFAULTS, name)
  }

  /** The environment after one call: the accepted names set, the dropped ones restored or unset. */
  function Reconciled(env: Environment, applied: set<string>, settings: Environment): Environment {
    map name | name in env.Keys + Accepted(settings) + (applied * BUILTIN_DEFAULTS.Keys)
               && (name in applied || name in Accepted(settings) ==> Desired(settings, name).Some?) ::
      if name in applied || name in Accepted(settings) then Desired(settings, name).value else env[name]
  }

  predicate Changes(env: Environment, applied: set<string>, settings: Environment) {
    || Differs(env, settings, Accepted(settings))
    || applied - Accepted(settings) != {}
  }

  /** The settings' values of some of their names. */
  function Taken(settings: Environment, names: set<string>): Environment
    requires names <= settings.Keys
  {
    map name | name in names :: settings[name]
  }

  predicate Differs(env: Environment, settings: Environment, names: set<string>)
    requires names <= settings.Keys
  {
    exists name | name in names :: Lookup(env, name) != Some(settings[name])
  }

  lemma DiffersNext(env: Environment, settings: Environment, names: set<string>, name: string)
    requires names <= settings.Keys && name in settings && name !in names
    ensures Lookup(env + Taken(settings, names), name) == Lookup(env, name)
    ensures Taken(settings, names + {name}) == Taken(settings, names)[name := settings[name]]
    ensures Differs(env, settings, names + {name}) <==>
      Differs(env, settings, names) || Lookup(env, name) != Some(settings[name])
    ensures Lookup(env, name) == Some(settings[name]) ==>
      env + Taken(settings, names + {name}) == env + Taken(settings, names)
  {
  }

  class Process {
    var env: Environment
    var applied: set<string>

    constructor (env: Environment)
      ensures this.env == env && applied == {}
    {
      this.env, applied := env, {};
    }

    method RestoreOrUnset(name: string)
      modifies this`env
      ensures env == if name in BUILTIN_DEFAULTS then old(env)[name := BUILTIN_DEFAULTS[name]] else old(env) - {name}
    {
      if name in BUILTIN_DEFAULTS {
        env := env[name := BUILTIN_DEFAULTS[name]];
      } else {
        env := env - {name};
      }
    }

    /** The loop that sets what differs. */
    method SetAccepted(settings: Environment) returns (changed: bool)
      modifies this`env
      ensures env == old(env) + Taken(settings, Accepted(settings))
      ensures changed <==> Differs(old(env), settings, Accepted(settings))
    {
      changed := false;
      var rest := settings.Keys;
      assert Accepted(settings) - rest == {};
      while rest != {}
        invariant rest <= settings.Keys
        invariant env == old(env) + Taken(settings, Accepted(settings) - rest)
        invariant changed <==> Differs(old(env), settings, Accepted(settings) - rest)
        decreases rest
      {
        var name :| name in rest;
        ghost var earlier := Accepted(settings) - rest;
        rest := rest - {name};
        if !IsValidName(name) || name in SESSION_DERIVED {
          assert Accepted(settings) - rest == earlier;
          continue;
        }
        assert Accepted(settings) - rest == earlier + {name};
        DiffersNext(old(env), settings, earlier, name);
        if Lookup(env, name) != Some(settings[name]) {
          env := env[name := settings[name]];
          changed := true;
        }
      }
      assert Accepted(settings) - rest == Accepted(settings);
    }

    /** `apply_environment_variables`. Returns none when nothing changed, otherwise the names that
        are no longer set. */
    method ApplyEnvironmentVariables(settings: Environment) returns (removed: Option<set<string>>)
      modifies this
      ensures env == Reconciled(old(env), old(applied), settings)
      ensures applied == Accepted(settings)
      ensures removed == if Changes(old(env), old(applied), settings) then Some(old(applied) - Accepted(settings)) else None
    {
      var changed := SetAccepted(settings);
      ghost var settled, differed := env, changed;
      var next := Accepted(settings);
      var gone := applied - next;
      var rest := gone;
      while rest != {}
        invariant rest <= gone && applied == old(applied)
        invariant forall name ::
          Lookup(env, name) == if name in gone - rest then Lookup(BUILTIN_DEFAULTS, name) else Lookup(settled, name)
        invariant changed <==> differed || rest != gone
        decreases rest
      {
        var name :| name in rest;
        rest := rest - {name};
        RestoreOrUnset(name);
        changed := true;
      }
      forall name ensures Lookup(env, name) == Lookup(Reconciled(old(env), old(applied), settings), name) {
        AfterReconciling(old(env), old(applied), settings, name);
        assert Lookup(env, name) == if name in gone then Lookup(BUILTIN_DEFAULTS, name) else Lookup(settled, name);
        assert Lookup(settled, name) == if name in next then Some(settings[name]) else Lookup(old(env), name);
        assert name in gone ==> Desired(settings, name) == Lookup(BUILTIN_DEFAULTS, name);
      }
      SameLookups(env, Reconciled(old(env), old(applied), settings));
      applied := next;
      removed := if changed then Some(gone) else None;
    }
  }

  lemma SameLookups(a: Environment, b: Environment)
    requires forall name :: Lookup(a, name) == Lookup(b, name)
    ensures a == b
  {
    assert forall name :: name in a <==> Lookup(a, name).Some?;
    assert forall name :: name in b <==> Lookup(b, name).Some?;
    forall name | name in a ensures name in b && a[name] == b[name] {
      assert Lookup(a, name) == Lookup(b, name);
    }
    forall name | name in b ensures name in a {
      assert Lookup(a, name) == Lookup(b, name);
    }
  }

  // ----- histories of settings

  datatype History = Begun(env: Environment) | Then(before: History, settings: Environment)

  function Env(h: History): Environment {
    match h
    case Begun(env) => env
    case Then(before, settings) => Reconciled(Env(before), Applied(before), settings)
  }

  function Applied(h: History): set<string> {
    match h
    case Begun(_) => {}
    case Then(_, settings) => Accepted(settings)
  }

  /** Every name some settings of the history applied. */
  function Ever(h: History): set<string> {
    match h
    case Begun(_) => {}
    case Then(before, settings) => Ever(before) + Accepted(settings)
  }

  function First(h: History): Environment {
    match h
    case Begun(env) => env
    case Then(before, _) => First(before)
  }

  lemma AfterReconciling(env: Environment, applied: set<string>, settings: Environment, name: string)
    ensures Lookup(Reconciled(env, applied, settings), name) ==
      if name in applied || name in Accepted(settings) then Desired(settings, name) else Lookup(env, name)
  {
  }

  /** After any history, each name that was ever applied holds the last settings' value, else its
      built-in default, else nothing; and every other name holds what it held at the start. */
  lemma {:induction false} HistoryIsReconciled(h: History, name: string)
    requires h.Then?
    ensures Lookup(Env(h), name) == if name in Ever(h) then Desired(h.settings, name) else Lookup(First(h), name)
  {
    AfterReconciling(Env(h.before), Applied(h.before), h.settings, name);
    if h.before.Then? {
      HistoryIsReconciled(h.before, name);
    }
  }

  /** The names derived from this very session are never touched, whatever the settings say. */
  lemma {:induction false} SessionNamesAreNeverTouched(h: History, name: string)
    requires h.Then? && name in SESSION_DERIVED
    ensures Lookup(Env(h), name) == Lookup(First(h), name)
  {
    NeverAccepted(h, name);
    HistoryIsReconciled(h, name);
  }

  lemma {:induction false} NeverAccepted(h: History, name: string)
    requires name in SESSION_DERIVED || !IsValidName(name)
    ensures name !in Ever(h)
  {
    if h.Then? {
      NeverAccepted(h.before, name);
    }
  }

  /** Applying the same settings again reports no change and changes nothing. */
  lemma {:induction false} ReapplyingIsSilent(h: History)
    requires h.Then?
    ensures !Changes(Env(h), Applied(h), h.settings)
    ensures Env(Then(h, h.settings)) == Env(h) && Applied(Then(h, h.settings)) == Applied(h)
  {
    forall name ensures Lookup(Env(Then(h, h.settings)), name) == Lookup(Env(h), name) {
      HistoryIsReconciled(h, name);
      HistoryIsReconciled(Then(h, h.settings), name);
    }
    SameLookups(Env(Then(h, h.settings)), Env(h));
    forall name | name in Accepted(h.settings) ensures Lookup(Env(h), name) == Some(h.settings[name]) {
      HistoryIsReconciled(h, name);
    }
  }

  /** A call that reports no change leaves the environment as it was. */
  lemma SilentMeansUnchanged(env: Environment, applied: set<string>, settings: Environment)
    requires !Changes(env, applied, settings)
    ensures Reconciled(env, applied, settings) == env
  {
    forall name ensures Lookup(Reconciled(env, applied, settings), name) == Lookup(env, name) {
      AfterReconciling(env, applied, settings, name);
      assert name !in applied - Accepted(settings);
    }
    SameLookups(Reconciled(env, applied, settings), env);
  }

  /** In words: a valid name the settings give a value has that value, unless it belongs to this very
      session; a name that earlier settings gave a value and these do not has its built-in default
      again, or is unset; and a name no settings ever gave a value is as it was. */
  lemma {:induction false} EnvironmentInWords(h: History, name: string)
    requires h.Then?
    ensures name in h.settings && IsValidName(name) && name != "WAYLAND_DISPLAY" && name != "DISPLAY" ==>
      Lookup(Env(h), name) == Some(h.settings[name])
    ensures name !in h.settings && name in Ever(h) ==>
      if name == "XDG_CURRENT_DESKTOP" then Lookup(Env(h), name) == Some("veshell")
      else if name == "DESKTOP_SESSION" then Lookup(Env(h), name) == Some("gnome")
      else if name == "XDG_SESSION_TYPE" || name == "GDK_BACKEND" || name == "QT_QPA_PLATFORM" then
        Lookup(Env(h), name) == Some("wayland")
      else name !in Env(h)
    ensures name !in Ever(h) ==> Lookup(Env(h), name) == Lookup(First(h), name)
  {
    HistoryIsReconciled(h, name);
  }

  predicate GivenOnce(h: History, name: string) {
    h.Then? && (name in h.settings || GivenOnce(h.before, name))
  }

  /** A name was applied at some time exactly when it is one that may be and some settings gave it a value. */
  lemma {:induction false} EverExactly(h: History, name: string)
    ensures name in Ever(h) <==>
      GivenOnce(h, name) && IsValidName(name) && name != "WAYLAND_DISPLAY" && name != "DISPLAY"
  {
    if h.Then? {
      EverExactly(h.before, name);
    }
  }
}
