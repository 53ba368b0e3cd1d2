/**
 Management keys: the ones a boot configures and the ones the console issues
 (cmd/controlplane/main.go:205-228, internal/apikey/apikey.go:55-69, internal/apikey/presets.go,
 internal/api/auth.go:79-199, internal/api/apikeys.go:104-165, internal/api/consoleapikeys.go:318-418).
 */
module PresetKeys {
  import opened Options

  // A key's value; its hash identifies the row and is taken not to collide.
  type Value = string

  datatype Status = Active | Inactive | Archived

  // issuer is None on a row an environment variable manages. owned: it is a principal's credential.
  datatype Key = Key(name: string, status: Status, issuer: Option<string>, expires: Option<int>, owned: bool)

  type Table = map<Value, Key>

  datatype Patch = Patch(status: Option<Status>, name: Option<string>)

  datatype Action =
    | Boot(bootstrap: Value, brain: Value)
    | EnsureOne(name: string, value: Value)
    | Retire(name: string)
    | Issue(value: Value, name: string, issuer: string, expires: Option<int>, owned: bool)
    | Update(value: Value, patch: Patch, now: int)

  // One live key under a name that no one issued.
  predicate LiveUnissued(k: Key, name: string) {
    k.name == name && k.status.Active? && k.issuer.None?
  }

  function Retired(k: Key, name: string): Key {
    if LiveUnissued(k, name) then k.(status := Archived) else k
  }

  // retireAPIKeyIn, and ensureAPIKeyIn's archive of every other value.
  function RetireIn(t: Table, name: string, but: set<Value>): (r: Table)
    ensures r.Keys == t.Keys
  {
    map v | v in t :: if v in but then t[v] else Retired(t[v], name)
  }

  // ensureAPIKeyIn: archive the incumbent, then insert the value or adopt its row.
  function EnsureIn(t: Table, name: string, v: Value): Table {
    RetireIn(t, name, {v})[v := if v in t then t[v].(name := name, status := Active, issuer := None, expires := None)
                                else Key(name, Active, None, None, false)]
  }

  predicate Owned(t: Table, v: Value) {
    v != "" && v in t && t[v].owned
  }

  // EnsureManagementPresets, one transaction; an owned value stops it before any write.
  function PresetsStep(t: Table, bootstrap: Value, brain: Value): Table {
    if Owned(t, bootstrap) || Owned(t, brain) then t
    else
      var first := EnsureIn(t, "bootstrap", bootstrap);
      if brain != "" then EnsureIn(first, "brain", brain) else RetireIn(first, "brain", {})
  }

  // textproto.TrimString changes a value that starts or ends in one of these.
  predicate HeaderSpace(c: char) {
    c == ' ' || c == '\t' || c == '\n' || c == '\r'
  }

  predicate Padded(v: Value) {
    v != "" && (HeaderSpace(v[0]) || HeaderSpace(v[|v| - 1]))
  }

  // What the control plane asks of its two variables before it opens the store (CheckBrainKey).
  predicate Accepts(bootstrap: Value, brain: Value) {
    bootstrap != "" && (brain == "" || (brain != bootstrap && !Padded(brain)))
  }

  function BootStep(t: Table, bootstrap: Value, brain: Value): Table {
    if Accepts(bootstrap, brain) then PresetsStep(t, bootstrap, brain) else t
  }

  predicate Unowned(t: Table, bootstrap: Value, brain: Value) {
    !Owned(t, bootstrap) && !Owned(t, brain)
  }

  predicate Lapsed(k: Key, now: int) {
    k.expires.Some? && k.expires.value <= now
  }

  // updateAPIKeyIn's guards, in order.
  predicate Updatable(k: Key, p: Patch, now: int) {
    && k.issuer.Some?
    && !k.status.Archived?
    && (Lapsed(k, now) ==> p.name.None? && p.status == Some(Archived))
  }

  function UpdateStep(t: Table, v: Value, p: Patch, now: int): Table {
    if v !in t || !Updatable(t[v], p, now) then t
    else t[v := t[v].(status := if p.status.Some? then p.status.value else t[v].status,
                      name := if p.name.Some? then p.name.value else t[v].name)]
  }

  function Step(t: Table, a: Action): Table {
    match a
    case Boot(bootstrap, brain) => BootStep(t, bootstrap, brain)
    case EnsureOne(name, v) => if Owned(t, v) then t else EnsureIn(t, name, v)
    case Retire(name) => RetireIn(t, name, {})
    case Issue(v, name, issuer, expires, owned) =>
      if v in t || issuer == "" then t else t[v := Key(name, Active, Some(issuer), expires, owned)]
    case Update(v, p, now) => UpdateStep(t, v, p, now)
  }

  function Run(acts: seq<Action>): Table {
    if acts == [] then map[] else Step(Run(acts[..|acts| - 1]), acts[|acts| - 1])
  }

  // ---------------------------------------------------------------- one live per name

  // api_keys_one_live_unissued.
  ghost predicate OneLive(t: Table) {
    forall v, w, name :: v in t && w in t && LiveUnissued(t[v], name) && LiveUnissued(t[w], name) ==> v == w
  }

  lemma RetireInOneLive(t: Table, name: string, but: set<Value>)
    requires OneLive(t)
    ensures OneLive(RetireIn(t, name, but))
    ensures forall v :: v in t && v !in but ==> !LiveUnissued(RetireIn(t, name, but)[v], name)
  {
  }

  lemma EnsureInOneLive(t: Table, name: string, v: Value)
    requires OneLive(t)
    ensures OneLive(EnsureIn(t, name, v))
  {
  }

  lemma StepOneLive(t: Table, a: Action)
    requires OneLive(t)
    ensures OneLive(Step(t, a))
  {
    hide EnsureIn, RetireIn;
    match a
    case Boot(bootstrap, brain) =>
      EnsureInOneLive(t, "bootstrap", bootstrap);
      var first := EnsureIn(t, "bootstrap", bootstrap);
      EnsureInOneLive(first, "brain", brain);
      RetireInOneLive(first, "brain", {});
    case EnsureOne(name, v) => EnsureInOneLive(t, name, v);
    case Retire(name) => RetireInOneLive(t, name, {});
    case Issue(v, name, issuer, expires, owned) =>
      forall x, y, n | x in Step(t, a) && y in Step(t, a) && LiveUnissued(Step(t, a)[x], n) && LiveUnissued(Step(t, a)[y], n)
        ensures x == y
      {
        assert x in t && y in t && LiveUnissued(t[x], n) && LiveUnissued(t[y], n);
      }
    case Update(v, p, now) =>
      forall x, y, n | x in Step(t, a) && y in Step(t, a) && LiveUnissued(Step(t, a)[x], n) && LiveUnissued(Step(t, a)[y], n)
        ensures x == y
      {
        assert LiveUnissued(t[x], n) && LiveUnissued(t[y], n);
      }
  }

  /** Over any run of boots, retirements, issues and updates, a name has at most one active unissued key. */
  lemma {:induction false} OneLivePerName(acts: seq<Action>)
    ensures OneLive(Run(acts))
    decreases |acts|
  {
    hide Step;
    if acts != [] {
      OneLivePerName(acts[..|acts| - 1]);
      StepOneLive(Run(acts[..|acts| - 1]), acts[|acts| - 1]);
    }
  }

  // ---------------------------------------------------------------- a boot

  // The value authenticates, for good, under its name.
  ghost predicate Works(t: Table, name: string, v: Value) {
    v in t && LiveUnissued(t[v], name) && t[v].expires.None?
  }

  // What a deployment configured with these two values relies on.
  ghost predicate Configured(t: Table, bootstrap: Value, brain: Value) {
    && Works(t, "bootstrap", bootstrap)
    && (if brain != "" then Works(t, "brain", brain) else forall v :: v in t ==> !LiveUnissued(t[v], "brain"))
  }

  // The two adoptions of one transaction: each value ends under its own name unless
  // they are one value, which the second adoption then takes from the first.
  lemma PresetsConfigure(t: Table, bootstrap: Value, brain: Value)
    requires Unowned(t, bootstrap, brain)
    ensures Configured(PresetsStep(t, bootstrap, brain), bootstrap, brain) <==> bootstrap != brain || brain == ""
  {
  }

  /**
   Whatever the table holds, a boot that goes through leaves both configured
   values working under their names, rows adopted from the other name or from
   the console included, and no other key live and unissued under either; an
   unset brain key retires the one there was.
   */
  lemma BootConfigures(t: Table, bootstrap: Value, brain: Value)
    requires Accepts(bootstrap, brain) && Unowned(t, bootstrap, brain) && OneLive(t)
    ensures var after := BootStep(t, bootstrap, brain);
      && Configured(after, bootstrap, brain)
      && (forall v :: v in after && LiveUnissued(after[v], "bootstrap") ==> v == bootstrap)
      && (forall v :: v in after && LiveUnissued(after[v], "brain") ==> v == brain != "")
  {
    PresetsConfigure(t, bootstrap, brain);
    StepOneLive(t, Boot(bootstrap, brain));
  }

  /** So after any run at all, and then only console calls, the last boot's keys are still the ones that work. */
  lemma BootLasts(acts: seq<Action>, bootstrap: Value, brain: Value, later: seq<Action>)
    requires Accepts(bootstrap, brain) && Unowned(Run(acts), bootstrap, brain) && ConsoleOnly(later)
    ensures Works(RunOn(BootStep(Run(acts), bootstrap, brain), later), "bootstrap", bootstrap)
    ensures brain != "" ==> Works(RunOn(BootStep(Run(acts), bootstrap, brain), later), "brain", brain)
  {
    hide BootStep;
    OneLivePerName(acts);
    BootConfigures(Run(acts), bootstrap, brain);
    var after := BootStep(Run(acts), bootstrap, brain);
    ConsoleNeverRevives(after, later, bootstrap);
    if brain != "" { ConsoleNeverRevives(after, later, brain); }
  }

  /**
   What rotation touches: under its name every other active key no one issued is
   archived and nothing else of it changes, and no other key is touched; the
   configured value ends active under the name, unissued and without an expiry.
   */
  lemma RotationExactly(t: Table, name: string, v: Value, w: Value)
    requires !Owned(t, v) && w in t && w != v
    ensures var r := Step(t, EnsureOne(name, v));
      && r.Keys == t.Keys + {v}
      && r[w] == (if t[w].name == name && t[w].status == Active && t[w].issuer == None then t[w].(status := Archived) else t[w])
      && r[v].name == name && r[v].status == Active && r[v].issuer == None && r[v].expires == None
  {
  }

  /** A retirement archives the active keys no one issued under its name, and nothing else. */
  lemma RetirementExactly(t: Table, name: string, w: Value)
    requires w in t
    ensures var r := Step(t, Retire(name));
      && r.Keys == t.Keys
      && r[w] == (if t[w].name == name && t[w].status == Active && t[w].issuer == None then t[w].(status := Archived) else t[w])
  {
  }

  /** A boot refuses a principal's key and never takes one over. */
  lemma OwnedStays(t: Table, a: Action, v: Value)
    requires v in t && t[v].owned && t[v].issuer.Some? && v != "" && !a.Update?
    ensures v in Step(t, a) && Step(t, a)[v] == t[v]
  {
  }

  // ---------------------------------------------------------------- the console

  /** The console never changes a key an environment variable manages, nor one already archived, and never un-issues one. */
  lemma ConsoleKeepsOut(t: Table, a: Action, v: Value)
    requires (a.Update? || a.Issue?) && v in t
    ensures v in Step(t, a)
    ensures t[v].issuer.None? || t[v].status.Archived? ==> Step(t, a)[v] == t[v]
    ensures Step(t, a)[v].issuer == t[v].issuer && Step(t, a)[v].expires == t[v].expires
    ensures a.Update? && Lapsed(t[v], a.now) ==> Step(t, a)[v] == t[v] || Step(t, a)[v] == t[v].(status := Archived)
  {
  }

  /**
   A console patch goes through exactly on an issued key that is not archived and
   has not lapsed, or to archive one that has, and writes what it says and no more.
   */
  lemma PatchExactly(t: Table, v: Value, p: Patch, now: int)
    requires v in t
    ensures var r, k := Step(t, Update(v, p, now)), t[v];
      var lapsed := k.expires.Some? && k.expires.value <= now;
      if k.issuer.Some? && k.status != Archived && (!lapsed || (p.status == Some(Archived) && p.name == None)) then
        r == t[v := Key(if p.name.Some? then p.name.value else k.name, if p.status.Some? then p.status.value else k.status, k.issuer, k.expires, k.owned)]
      else r == t
  {
  }

  /** An issued key is new, active and its issuer's, as it was asked for; an existing value is never reissued. */
  lemma IssueExactly(t: Table, v: Value, name: string, issuer: string, expires: Option<int>, owned: bool)
    ensures Step(t, Issue(v, name, issuer, expires, owned))
         == if v !in t && issuer != "" then t[v := Key(name, Active, Some(issuer), expires, owned)] else t
  {
  }

  predicate ConsoleOnly(acts: seq<Action>) {
    forall i :: 0 <= i < |acts| ==> acts[i].Update? || acts[i].Issue?
  }

  function RunOn(t: Table, acts: seq<Action>): Table {
    if acts == [] then t else Step(RunOn(t, acts[..|acts| - 1]), acts[|acts| - 1])
  }

  /** Whatever the console does, in whatever order, an archived or unissued key stays as it was. */
  lemma {:induction false} ConsoleNeverRevives(t: Table, acts: seq<Action>, v: Value)
    requires ConsoleOnly(acts) && v in t && (t[v].issuer.None? || t[v].status.Archived?)
    ensures v in RunOn(t, acts) && RunOn(t, acts)[v] == t[v]
    decreases |acts|
  {
    hide Step;
    if acts != [] {
      ConsoleNeverRevives(t, acts[..|acts| - 1], v);
      ConsoleKeepsOut(RunOn(t, acts[..|acts| - 1]), acts[|acts| - 1], v);
    }
  }
}
