/** Users and rules that the options add at start (ntfy/app/baseline.py). */
module NtfyBaseline {
  import opened Wrappers
  import opened NtfyState

  datatype Entry = Entry(username: string, password: string, topic: string, write: bool)

  datatype Settings = Settings(admin: string, entries: seq<Entry>, overwrite: bool)

  datatype Access = Readable | Unavailable | Broken

  /** What the database read gives, and the fate of each command in turn. */
  datatype Luck = Luck(db: Access, fates: seq<Fate>)

  function FateAt(luck: Luck, i: nat): Fate { if i < |luck.fates| then luck.fates[i] else Done }

  /** The dictionaries of one application: roles and rules as last known, the rules named, commands so far. */
  datatype Work = Work(s: State, roles: map<string, Role>, rules: map<Key, Perm>, named: set<Key>, calls: nat)

  function Wanted(e: Entry): Perm { if e.write then Rw else Ro }

  function KeyOf(e: Entry): Key { Key(e.username, e.topic) }

  datatype Stage = Raised | Created | Existed

  /** Create the user unless it is known; a command that finds it in the database treats it as an existing one. */
  function EnsureUser(w: Work, e: Entry, luck: Luck): (Work, Stage) {
    var fate, next := FateAt(luck, w.calls), w.(calls := w.calls + 1);
    if e.username in w.roles then (w, Existed)
    else if e.username in w.s.users then
      if fate == Done then (next.(roles := w.roles[e.username := User]), Existed) else (next, Raised)
    else
      var after := AddUser(w.s, e.username, e.password, User);
      if fate != Done then (next.(s := Fated(fate, w.s, after)), Raised)
      else (next.(s := after.(userOrigins := after.userOrigins[e.username := Options]),
                  roles := w.roles[e.username := User]), Created)
  }

  function ResetPassword(w: Work, e: Entry, luck: Luck): (Work, bool) {
    var fate := FateAt(luck, w.calls);
    var after := w.s.(passwords := w.s.passwords[e.username := e.password]);
    (w.(s := Fated(fate, w.s, after), calls := w.calls + 1), fate == Done)
  }

  function SetBaselineRule(w: Work, e: Entry, luck: Luck): Work {
    var k, p := KeyOf(e), Wanted(e);
    var fate := FateAt(luck, w.calls);
    var known := w.(named := w.named + {k});
    var tried := known.(s := Fated(fate, w.s, SetAccess(w.s, k, p)), calls := w.calls + 1);
    if k !in w.rules then
      if fate != Done then tried
      else tried.(s := SetOrigin(tried.s, k, Options), rules := w.rules[k := p])
    else if GetAcl(w.s, k) == Options && w.rules[k] != p then
      if fate != Done then tried else tried.(rules := w.rules[k := p])
    else known
  }

  function ApplyEntry(o: Settings, w: Work, e: Entry, luck: Luck): Work {
    var (u, stage) := EnsureUser(w, e, luck);
    if stage == Raised || e.username !in u.roles || u.roles[e.username] == Admin then u
    else
      var (v, ok) := if stage == Existed && o.overwrite then ResetPassword(u, e, luck) else (u, true);
      if !ok || e.topic == "" then v else SetBaselineRule(v, e, luck)
  }

  function Step(o: Settings, w: Work, i: nat, luck: Luck): Work
    requires i < |o.entries|
  {
    if o.entries[i].username == o.admin then w else ApplyEntry(o, w, o.entries[i], luck)
  }

  function ApplyFrom(o: Settings, w: Work, i: nat, luck: Luck): Work
    requires i <= |o.entries|
    decreases |o.entries| - i
  {
    if i == |o.entries| then w else ApplyFrom(o, Step(o, w, i, luck), i + 1, luck)
  }

  /** Entries that name the admin of the options are ignored. */
  predicate Names(o: Settings, n: nat, user: string)
    requires n <= |o.entries|
  {
    user != o.admin && exists i :: 0 <= i < n && o.entries[i].username == user
  }

  ghost predicate AreNamed(o: Settings, n: nat, users: set<string>)
    requires n <= |o.entries|
  {
    forall u :: u in users <==> Names(o, n, u)
  }

  function Begin(s: State, luck: Luck): Work {
    if luck.db == Readable then Work(s, s.users, s.acl, {}, 0) else Work(s, map[], map[], {}, 0)
  }

  function UserOrigin(o: Settings, u: string, was: Origin): Origin {
    if was == Options && u != o.admin && !Names(o, |o.entries|, u) then Gui else was
  }

  function RuleOrigin(named: set<Key>, k: Key, was: Origin): Origin {
    if was == Options && k !in named then Gui else was
  }

  function UserOrigins(o: Settings, m: map<string, Origin>): map<string, Origin> {
    map u | u in m :: UserOrigin(o, u, m[u])
  }

  function RuleOrigins(named: set<Key>, m: map<Key, Origin>): map<Key, Origin> {
    map k | k in m :: RuleOrigin(named, k, m[k])
  }

  /** Records of the options that the entries no longer name go over to the gui. */
  function Orphan(o: Settings, w: Work): State {
    w.s.(userOrigins := UserOrigins(o, w.s.userOrigins), aclOrigins := RuleOrigins(w.named, w.s.aclOrigins))
  }

  function Apply(o: Settings, s: State, luck: Luck): State {
    if luck.db == Broken then s else Orphan(o, ApplyFrom(o, Begin(s, luck), 0, luck))
  }

  // ---- The application as the program runs it ----

  class Baseline {
    const o: Settings
    var w: Work

    constructor (o: Settings, s: State)
      ensures this.o == o && w.s == s
    {
      this.o, w := o, Work(s, map[], map[], {}, 0);
    }

    method Run(luck: Luck)
      modifies this
      ensures w.s == Apply(o, old(w.s), luck)
    {
      if luck.db == Broken { return; }
      w := if luck.db == Readable then Work(w.s, w.s.users, w.s.acl, {}, 0) else Work(w.s, map[], map[], {}, 0);
      var namedUsers := Entries(luck);
      var origins := OrphanUsers(namedUsers, w.s.userOrigins);
      w := w.(s := w.s.(userOrigins := origins));
      var ruleOrigins := OrphanRules(w.named, w.s.aclOrigins);
      w := w.(s := w.s.(aclOrigins := ruleOrigins));
    }

    method Entries(luck: Luck) returns (namedUsers: set<string>)
      modifies this
      ensures w == ApplyFrom(o, old(w), 0, luck)
      ensures AreNamed(o, |o.entries|, namedUsers)
    {
      namedUsers := {};
      for i := 0 to |o.entries|
        invariant ApplyFrom(o, w, i, luck) == ApplyFrom(o, old(w), 0, luck)
        invariant AreNamed(o, i, namedUsers)
      {
        NamedOneMore(o, i, namedUsers);
        if o.entries[i].username != o.admin {
          namedUsers := namedUsers + {o.entries[i].username};
        }
        OneIfNotAdmin(i, luck);
      }
    }

    method OneIfNotAdmin(i: nat, luck: Luck)
      requires i < |o.entries|
      modifies this
      ensures w == Step(o, old(w), i, luck)
    {
      if o.entries[i].username != o.admin {
        One(o.entries[i], luck);
      }
    }

    method One(e: Entry, luck: Luck)
      modifies this
      ensures w == ApplyEntry(o, old(w), e, luck)
    {
      var existed := e.username in w.roles;
      if !existed {
        var fate := FateAt(luck, w.calls);
        w := w.(calls := w.calls + 1);
        if e.username in w.s.users {
          if fate != Done { return; }
          existed := true;
          w := w.(roles := w.roles[e.username := User]);
        } else {
          w := w.(s := Fated(fate, w.s, AddUser(w.s, e.username, e.password, User)));
          if fate != Done { return; }
          w := w.(roles := w.roles[e.username := User]);
          w := w.(s := w.s.(userOrigins := w.s.userOrigins[e.username := Options]));
        }
      }
      if w.roles[e.username] == Admin { return; }
      if existed && o.overwrite {
        var fate := FateAt(luck, w.calls);
        var after := w.s.(passwords := w.s.passwords[e.username := e.password]);
        w := w.(s := Fated(fate, w.s, after), calls := w.calls + 1);
        if fate != Done { return; }
      }
      if e.topic == "" { return; }
      Rule(e, luck);
    }

    method Rule(e: Entry, luck: Luck)
      modifies this
      ensures w == SetBaselineRule(old(w), e, luck)
    {
      var permission := if e.write then Rw else Ro;
      var key := Key(e.username, e.topic);
      w := w.(named := w.named + {key});
      if key !in w.rules {
        var fate := FateAt(luck, w.calls);
        w := w.(s := Fated(fate, w.s, SetAccess(w.s, key, permission)), calls := w.calls + 1);
        if fate != Done { return; }
        w := w.(rules := w.rules[key := permission]);
        w := w.(s := SetOrigin(w.s, key, Options));
      } else if GetAcl(w.s, key) == Options {
        if w.rules[key] != permission {
          var fate := FateAt(luck, w.calls);
          w := w.(s := Fated(fate, w.s, SetAccess(w.s, key, permission)), calls := w.calls + 1);
          if fate != Done { return; }
          w := w.(rules := w.rules[key := permission]);
        }
      }
    }

    /** The records are rewritten one by one over a snapshot of them. */
    method OrphanUsers(namedUsers: set<string>, snap: map<string, Origin>) returns (doc: map<string, Origin>)
      requires AreNamed(o, |o.entries|, namedUsers)
      ensures doc == UserOrigins(o, snap)
    {
      doc := snap;
      var left := snap.Keys;
      while left != {}
        invariant left <= snap.Keys && doc.Keys == snap.Keys
        invariant forall u :: u in snap ==> doc[u] == if u in left then snap[u] else UserOrigin(o, u, snap[u])
        decreases left
      {
        var u :| u in left;
        if snap[u] == Options && u != o.admin && u !in namedUsers {
          doc := doc[u := Gui];
        }
        left := left - {u};
      }
    }

    method OrphanRules(named: set<Key>, snap: map<Key, Origin>) returns (doc: map<Key, Origin>)
      ensures doc == RuleOrigins(named, snap)
    {
      doc := snap;
      var left := snap.Keys;
      while left != {}
        invariant left <= snap.Keys && doc.Keys == snap.Keys
        invariant forall k :: k in snap ==> doc[k] == if k in left then snap[k] else RuleOrigin(named, k, snap[k])
        decreases left
      {
        var k :| k in left;
        if snap[k] == Options && k !in named {
          doc := doc[k := Gui];
        }
        left := left - {k};
      }
    }
  }

  lemma NamesOneMore(o: Settings, i: nat)
    requires i < |o.entries|
    ensures forall u :: Names(o, i + 1, u) <==> Names(o, i, u) || (u == o.entries[i].username && u != o.admin)
  {
    forall u ensures Names(o, i + 1, u) <==> Names(o, i, u) || (u == o.entries[i].username && u != o.admin) {
      if u != o.admin && u == o.entries[i].username { assert Names(o, i + 1, u); }
    }
  }

  lemma NamedOneMore(o: Settings, i: nat, users: set<string>)
    requires i < |o.entries| && AreNamed(o, i, users)
    ensures AreNamed(o, i + 1, if o.entries[i].username != o.admin then users + {o.entries[i].username} else users)
  {
    NamesOneMore(o, i);
  }

  // ---- What an application never does ----

  ghost predicate UserStays(a: State, b: State, u: string) {
    u in a.users ==> u in b.users && b.users[u] == a.users[u]
  }

  ghost predicate RuleStays(a: State, b: State, k: Key) { k in a.acl ==> k in b.acl }

  /** Owned by someone other than the options. */
  ghost predicate Foreign(s: State, k: Key) { k in s.acl && GetAcl(s, k) != Options }

  ghost predicate Kept(a: State, b: State, k: Key) {
    k in a.acl && k in b.acl && b.acl[k] == a.acl[k] && GetAcl(b, k) == GetAcl(a, k)
  }

  ghost predicate NamesRule(o: Settings, k: Key) {
    k.user != o.admin && k.topic != "" && exists i :: 0 <= i < |o.entries| && KeyOf(o.entries[i]) == k
  }

  /** What one entry may touch: not a user or rule that is there, and of rules only its own, if its owner is unknown. */
  ghost predicate Mild(a: Work, b: Work, e: Entry, u: string, k: Key) {
    && UserStays(a.s, b.s, u) && RuleStays(a.s, b.s, k) && b.s.stash == a.s.stash && (k in a.rules ==> k in b.rules)
    && (Foreign(a.s, k) && (k in a.rules || k != KeyOf(e) || e.topic == "") ==> Kept(a.s, b.s, k))
  }

  lemma EnsureMild(w: Work, e: Entry, luck: Luck, u: string, k: Key)
    ensures Mild(w, EnsureUser(w, e, luck).0, e, u, k)
  {
  }

  lemma ResetMild(w: Work, e: Entry, luck: Luck, u: string, k: Key)
    ensures Mild(w, ResetPassword(w, e, luck).0, e, u, k)
  {
  }

  lemma RuleMild(w: Work, e: Entry, luck: Luck, u: string, k: Key)
    requires e.topic != ""
    ensures Mild(w, SetBaselineRule(w, e, luck), e, u, k)
  {
  }

  lemma MildThenMild(a: Work, b: Work, c: Work, e: Entry, u: string, k: Key)
    requires Mild(a, b, e, u, k) && Mild(b, c, e, u, k)
    ensures Mild(a, c, e, u, k)
  {
  }

  lemma EntryMild(o: Settings, w: Work, e: Entry, luck: Luck, u: string, k: Key)
    ensures Mild(w, ApplyEntry(o, w, e, luck), e, u, k)
  {
    var a := EnsureUser(w, e, luck).0;
    var b := ResetPassword(a, e, luck).0;
    EntryStages(o, w, e, luck);
    EnsureMild(w, e, luck, u, k);
    ResetMild(a, e, luck, u, k);
    MildThenMild(w, a, b, e, u, k);
    if e.topic != "" {
      RuleMild(a, e, luck, u, k);
      RuleMild(b, e, luck, u, k);
      MildThenMild(w, a, SetBaselineRule(a, e, luck), e, u, k);
      MildThenMild(w, b, SetBaselineRule(b, e, luck), e, u, k);
    }
  }

  lemma EntryStages(o: Settings, w: Work, e: Entry, luck: Luck)
    ensures var v, a := ApplyEntry(o, w, e, luck), EnsureUser(w, e, luck).0; var b := ResetPassword(a, e, luck).0;
            v == a || v == b ||
            (e.topic != "" && (v == SetBaselineRule(a, e, luck) || v == SetBaselineRule(b, e, luck)))
  {
  }

  lemma StepStays(o: Settings, s: State, w: Work, i: nat, luck: Luck, u: string, k: Key)
    requires i < |o.entries| && UserStays(s, w.s, u) && RuleStays(s, w.s, k)
    ensures var v := Step(o, w, i, luck); UserStays(s, v.s, u) && RuleStays(s, v.s, k)
  {
    EntryMild(o, w, o.entries[i], luck, u, k);
  }

  lemma {:induction false} AllStay(o: Settings, s: State, w: Work, i: nat, luck: Luck, u: string, k: Key)
    requires i <= |o.entries| && UserStays(s, w.s, u) && RuleStays(s, w.s, k)
    ensures var v := ApplyFrom(o, w, i, luck); UserStays(s, v.s, u) && RuleStays(s, v.s, k)
    decreases |o.entries| - i
  {
    if i < |o.entries| {
      StepStays(o, s, w, i, luck, u, k);
      AllStay(o, s, Step(o, w, i, luck), i + 1, luck, u, k);
    }
  }

  lemma StepKeeps(o: Settings, s: State, w: Work, i: nat, luck: Luck, k: Key)
    requires i < |o.entries| && Foreign(s, k) && Kept(s, w.s, k) && (k in w.rules || !NamesRule(o, k))
    ensures var v := Step(o, w, i, luck); Kept(s, v.s, k) && (k in v.rules || !NamesRule(o, k))
  {
    EntryMild(o, w, o.entries[i], luck, "", k);
    if k == KeyOf(o.entries[i]) && k.user != o.admin && k.topic != "" { assert NamesRule(o, k); }
  }

  lemma {:induction false} AllKept(o: Settings, s: State, w: Work, i: nat, luck: Luck, k: Key)
    requires i <= |o.entries| && Foreign(s, k) && Kept(s, w.s, k) && (k in w.rules || !NamesRule(o, k))
    ensures Kept(s, ApplyFrom(o, w, i, luck).s, k)
    decreases |o.entries| - i
  {
    if i < |o.entries| {
      StepKeeps(o, s, w, i, luck, k);
      AllKept(o, s, Step(o, w, i, luck), i + 1, luck, k);
    }
  }

  /** Whatever the entries say and whatever fails: no user or rule is deleted and no role changes. */
  lemma NeverDeletes(o: Settings, s: State, luck: Luck, u: string, k: Key)
    ensures UserStays(s, Apply(o, s, luck), u) && RuleStays(s, Apply(o, s, luck), k)
  {
    if luck.db != Broken { AllStay(o, s, Begin(s, luck), 0, luck, u, k); }
  }

  /** A rule that the options do not own keeps permission and owner, over every pattern of failures, if the database
      could be read or no entry names it. */
  lemma ForeignStays(o: Settings, s: State, luck: Luck, k: Key)
    requires Foreign(s, k) && (luck.db != Unavailable || !NamesRule(o, k))
    ensures Kept(s, Apply(o, s, luck), k)
  {
    if luck.db != Broken { AllKept(o, s, Begin(s, luck), 0, luck, k); }
  }

  // ---- One entry without failures, seen at one user and at one rule ----

  function At<K, T>(m: map<K, T>, k: K): Option<T> { if k in m then Some(m[k]) else None }

  datatype UserView = UserView(role: Option<Role>, known: Option<Role>, password: Option<string>, owner: Option<Origin>)

  datatype RuleView = RuleView(perm: Option<Perm>, known: Option<Perm>, owner: Option<Origin>, named: bool)

  function SeeUser(w: Work, u: string): UserView {
    UserView(At(w.s.users, u), At(w.roles, u), At(w.s.passwords, u), At(w.s.userOrigins, u))
  }

  function SeeRule(w: Work, k: Key): RuleView {
    RuleView(At(w.s.acl, k), At(w.rules, k), At(w.s.aclOrigins, k), k in w.named)
  }

  ghost predicate AllDone(luck: Luck) { forall i: nat :: FateAt(luck, i) == Done }

  /** Create or get to know the user, then set the password again if asked to. */
  ghost function UserNext(o: Settings, e: Entry, v: UserView): UserView {
    if v.known.None? && v.role.None? then UserView(Some(User), Some(User), Some(e.password), Some(Options))
    else
      var known := if v.known.None? then v.(known := Some(User)) else v;
      if known.known != Some(Admin) && o.overwrite then known.(password := Some(e.password)) else known
  }

  ghost function RuleNext(e: Entry, r: RuleView): RuleView {
    if r.known.None? then RuleView(Some(Wanted(e)), Some(Wanted(e)), Some(Options), true)
    else if r.owner == Some(Options) && r.known != Some(Wanted(e)) then
      RuleView(Some(Wanted(e)), Some(Wanted(e)), r.owner, true)
    else r.(named := true)
  }

  lemma EnsureSeen(w: Work, e: Entry, luck: Luck, u: string, k: Key)
    requires AllDone(luck)
    ensures var (v, stage) := EnsureUser(w, e, luck);
            && stage != Raised
            && (stage == Created <==> SeeUser(w, e.username).known.None? && SeeUser(w, e.username).role.None?)
            && SeeRule(v, k) == SeeRule(w, k)
            && (u != e.username ==> SeeUser(v, u) == SeeUser(w, u))
            && SeeUser(v, e.username) == UserNext(Settings("", [], false), e, SeeUser(w, e.username))
  {
  }

  lemma ResetSeen(w: Work, e: Entry, luck: Luck, u: string, k: Key)
    requires AllDone(luck)
    ensures var (v, ok) := ResetPassword(w, e, luck);
            && ok && SeeRule(v, k) == SeeRule(w, k) && (u != e.username ==> SeeUser(v, u) == SeeUser(w, u))
            && SeeUser(v, e.username) == SeeUser(w, e.username).(password := Some(e.password))
  {
  }

  lemma RuleSeen(w: Work, e: Entry, luck: Luck, u: string, k: Key)
    requires AllDone(luck)
    ensures var v := SetBaselineRule(w, e, luck);
            && SeeUser(v, u) == SeeUser(w, u)
            && SeeRule(v, k) == if k == KeyOf(e) then RuleNext(e, SeeRule(w, k)) else SeeRule(w, k)
  {
  }

  /** Whether the entry gets as far as its rule. */
  ghost predicate Reaches(o: Settings, w: Work, e: Entry) {
    e.topic != "" && UserNext(o, e, SeeUser(w, e.username)).known != Some(Admin)
  }

  lemma EntryPath(o: Settings, w: Work, e: Entry, luck: Luck)
    requires AllDone(luck) && e.username in EnsureUser(w, e, luck).0.roles && EnsureUser(w, e, luck).1 != Raised
    ensures var (a, stage), v := EnsureUser(w, e, luck), ApplyEntry(o, w, e, luck);
            var b := if stage == Existed && o.overwrite then ResetPassword(a, e, luck).0 else a;
            v == if a.roles[e.username] == Admin then a else if e.topic == "" then b else SetBaselineRule(b, e, luck)
  {
  }

  lemma EntrySeen(o: Settings, w: Work, e: Entry, luck: Luck, u: string, k: Key)
    requires AllDone(luck)
    ensures var v := ApplyEntry(o, w, e, luck);
            && SeeUser(v, u) == (if u == e.username then UserNext(o, e, SeeUser(w, u)) else SeeUser(w, u))
            && SeeRule(v, k) ==
                 (if k == KeyOf(e) && Reaches(o, w, e) then RuleNext(e, SeeRule(w, k)) else SeeRule(w, k))
  {
    var (a, stage) := EnsureUser(w, e, luck);
    EnsureSeen(w, e, luck, u, k);
    EnsureSeen(w, e, luck, e.username, k);
    var b, ok := ResetPassword(a, e, luck).0, ResetPassword(a, e, luck).1;
    ResetSeen(a, e, luck, u, k);
    RuleSeen(a, e, luck, u, k);
    RuleSeen(b, e, luck, u, k);
    KnownUser(a, e.username);
    var v := ApplyEntry(o, w, e, luck);
    EntryPath(o, w, e, luck);
    Compose(o, e, w, a, b, SetBaselineRule(a, e, luck), SetBaselineRule(b, e, luck), v, stage, u, k);
  }

  lemma KnownUser(w: Work, u: string)
    ensures SeeUser(w, u).known.Some? <==> u in w.roles
    ensures u in w.roles ==> SeeUser(w, u).known.value == w.roles[u]
  {
  }

  lemma Compose(o: Settings, e: Entry, w: Work, a: Work, b: Work, ra: Work, rb: Work, v: Work, stage: Stage, u: string,
      k: Key)
    requires e.username in a.roles && SeeUser(a, e.username).known == Some(a.roles[e.username])
    requires stage == Created <==> SeeUser(w, e.username).known.None? && SeeUser(w, e.username).role.None?
    requires stage != Raised
    requires SeeRule(a, k) == SeeRule(w, k) && SeeRule(b, k) == SeeRule(a, k)
    requires u != e.username ==> SeeUser(a, u) == SeeUser(w, u) && SeeUser(b, u) == SeeUser(a, u)
    requires SeeUser(a, e.username) == UserNext(Settings("", [], false), e, SeeUser(w, e.username))
    requires SeeUser(b, e.username) == SeeUser(a, e.username).(password := Some(e.password))
    requires SeeUser(ra, u) == SeeUser(a, u) && SeeUser(rb, u) == SeeUser(b, u)
    requires SeeRule(ra, k) == if k == KeyOf(e) then RuleNext(e, SeeRule(a, k)) else SeeRule(a, k)
    requires SeeRule(rb, k) == if k == KeyOf(e) then RuleNext(e, SeeRule(b, k)) else SeeRule(b, k)
    requires var reset := stage == Existed && o.overwrite;
             v == if a.roles[e.username] == Admin then a
                  else if e.topic == "" then (if reset then b else a) else if reset then rb else ra
    ensures SeeUser(v, u) == (if u == e.username then UserNext(o, e, SeeUser(w, u)) else SeeUser(w, u))
    ensures SeeRule(v, k) == (if k == KeyOf(e) && Reaches(o, w, e) then RuleNext(e, SeeRule(w, k)) else SeeRule(w, k))
  {
  }

  // ---- When another owner's rule is lost ----

  /** The options have taken the rule over. */
  ghost predicate Taken(r: RuleView) { r.known.Some? && r.named && r.owner == Some(Options) }

  const BLIND := Luck(Unavailable, [])

  lemma BlindStep(o: Settings, w: Work, i: nat, k: Key)
    requires i < |o.entries| && SeeUser(w, k.user).known != Some(Admin) &&
             (SeeRule(w, k).known.Some? ==> Taken(SeeRule(w, k)))
    ensures var v := Step(o, w, i, BLIND);
            && SeeUser(v, k.user).known != Some(Admin) && (SeeRule(v, k).known.Some? ==> Taken(SeeRule(v, k)))
            && (Taken(SeeRule(w, k)) ==> Taken(SeeRule(v, k)))
            && (KeyOf(o.entries[i]) == k && k.user != o.admin && k.topic != "" ==> Taken(SeeRule(v, k)))
  {
    EntrySeen(o, w, o.entries[i], BLIND, k.user, k);
  }

  lemma {:induction false} BlindRun(o: Settings, w: Work, i: nat, k: Key)
    requires i <= |o.entries| && SeeUser(w, k.user).known != Some(Admin) &&
             (SeeRule(w, k).known.Some? ==> Taken(SeeRule(w, k)))
    requires k.user != o.admin && k.topic != ""
    requires Taken(SeeRule(w, k)) || exists j :: i <= j < |o.entries| && KeyOf(o.entries[j]) == k
    ensures Taken(SeeRule(ApplyFrom(o, w, i, BLIND), k))
    decreases |o.entries| - i
  {
    if i < |o.entries| {
      BlindStep(o, w, i, k);
      BlindRun(o, Step(o, w, i, BLIND), i + 1, k);
    }
  }

  /** Another owner's rule is safe from every application exactly when the database can be read or no entry names it:
      an application that could not read it takes over every rule it names. */
  lemma ForeignSafeExactly(o: Settings, s: State, db: Access, k: Key)
    requires Foreign(s, k)
    ensures (forall luck: Luck :: luck.db == db ==> Kept(s, Apply(o, s, luck), k)) <==>
              (db != Unavailable || !NamesRule(o, k))
  {
    if db != Unavailable || !NamesRule(o, k) {
      forall luck: Luck | luck.db == db ensures Kept(s, Apply(o, s, luck), k) { ForeignStays(o, s, luck, k); }
    } else {
      BlindRun(o, Begin(s, BLIND), 0, k);
      assert GetAcl(Apply(o, s, BLIND), k) == Options;
      assert BLIND.db == db && !Kept(s, Apply(o, s, BLIND), k);
    }
  }

  /** The failure at one input: a rule made in the gui, and an entry that names it with another permission. */
  lemma ForeignExample()
    ensures var k := Key("ann", "a");
            var s := State(map["ann" := User], map["ann" := "p"], map[k := Rw], map[], map[k := Gui], map[]);
            var after := Apply(Settings("bob", [Entry("ann", "p", "a", false)], false), s, BLIND);
            Foreign(s, k) && k in after.acl && after.acl[k] == Ro && GetAcl(after, k) == Options
  {
    var k, e := Key("ann", "a"), Entry("ann", "p", "a", false);
    var s := State(map["ann" := User], map["ann" := "p"], map[k := Rw], map[], map[k := Gui], map[]);
    var o := Settings("bob", [e], false);
    var w := Begin(s, BLIND);
    assert Step(o, w, 0, BLIND) == ApplyEntry(o, w, e, BLIND);
    assert ApplyFrom(o, w, 0, BLIND) == ApplyFrom(o, ApplyEntry(o, w, e, BLIND), 1, BLIND);
  }

  // ---- What an application without failures does, entry order included ----

  ghost predicate Smooth(luck: Luck) {
    luck.db == Readable && forall i :: 0 <= i < |luck.fates| ==> luck.fates[i] == Done
  }

  /** The password of the last, or of the first, of the entries before `n` for the user. */
  ghost function LastPassword(o: Settings, n: nat, u: string): string
    requires n <= |o.entries|
  {
    if n == 0 then ""
    else if o.entries[n - 1].username == u then o.entries[n - 1].password
    else LastPassword(o, n - 1, u)
  }

  ghost function FirstPassword(o: Settings, n: nat, u: string): string
    requires n <= |o.entries|
  {
    if n == 0 then ""
    else if o.entries[n - 1].username == u && !Names(o, n - 1, u) then o.entries[n - 1].password
    else FirstPassword(o, n - 1, u)
  }

  /** The permission of the last of the entries before `n` that names the rule. */
  ghost function LastPerm(o: Settings, n: nat, k: Key): Option<Perm>
    requires n <= |o.entries|
  {
    if n == 0 || k.user == o.admin || k.topic == "" then None
    else if KeyOf(o.entries[n - 1]) == k then Some(Wanted(o.entries[n - 1])) else LastPerm(o, n - 1, k)
  }

  ghost predicate AdminIn(s: State, u: string) { u in s.users && s.users[u] == Admin }

  /** The user after the first `n` entries. */
  ghost function UserAfter(o: Settings, s: State, n: nat, u: string): UserView
    requires n <= |o.entries|
  {
    var role, password, owner := At(s.users, u), At(s.passwords, u), At(s.userOrigins, u);
    if !Names(o, n, u) || AdminIn(s, u) then UserView(role, role, password, owner)
    else if u !in s.users then
      var password := if o.overwrite then LastPassword(o, n, u) else FirstPassword(o, n, u);
      UserView(Some(User), Some(User), Some(password), Some(Options))
    else UserView(role, role, if o.overwrite then Some(LastPassword(o, n, u)) else password, owner)
  }

  /** The rule after the first `n` entries. */
  ghost function RuleAfter(o: Settings, s: State, n: nat, k: Key): RuleView
    requires n <= |o.entries|
  {
    var perm, owner := At(s.acl, k), At(s.aclOrigins, k);
    if LastPerm(o, n, k).None? || AdminIn(s, k.user) then RuleView(perm, perm, owner, false)
    else if k !in s.acl then RuleView(LastPerm(o, n, k), LastPerm(o, n, k), Some(Options), true)
    else if Foreign(s, k) then RuleView(perm, perm, owner, true)
    else RuleView(LastPerm(o, n, k), LastPerm(o, n, k), owner, true)
  }

  lemma UserStep(o: Settings, s: State, w: Work, n: nat, luck: Luck, u: string)
    requires n < |o.entries| && AllDone(luck) && SeeUser(w, u) == UserAfter(o, s, n, u)
    ensures SeeUser(Step(o, w, n, luck), u) == UserAfter(o, s, n + 1, u)
  {
    NamesOneMore(o, n);
    EntrySeen(o, w, o.entries[n], luck, u, Key(u, ""));
    UserAfterNext(o, s, n, u);
  }

  lemma UserAfterNext(o: Settings, s: State, n: nat, u: string)
    requires n < |o.entries|
    ensures var v := UserAfter(o, s, n, u); var e := o.entries[n];
            UserAfter(o, s, n + 1, u) == if u == e.username && u != o.admin then UserNext(o, e, v) else v
  {
    NamesOneMore(o, n);
    assert Names(o, n + 1, u) <==> Names(o, n, u) || (u == o.entries[n].username && u != o.admin);
  }

  lemma RuleAfterNext(o: Settings, s: State, n: nat, k: Key)
    requires n < |o.entries|
    ensures var r := RuleAfter(o, s, n, k); var e := o.entries[n];
            RuleAfter(o, s, n + 1, k) ==
              if k == KeyOf(e) && k.user != o.admin && k.topic != "" && !AdminIn(s, k.user) then RuleNext(e, r) else r
  {
  }

  lemma RuleStep(o: Settings, s: State, w: Work, n: nat, luck: Luck, k: Key)
    requires n < |o.entries| && AllDone(luck)
    requires SeeUser(w, k.user) == UserAfter(o, s, n, k.user) && SeeRule(w, k) == RuleAfter(o, s, n, k)
    ensures SeeRule(Step(o, w, n, luck), k) == RuleAfter(o, s, n + 1, k)
  {
    EntrySeen(o, w, o.entries[n], luck, k.user, k);
    RuleAfterNext(o, s, n, k);
  }

  lemma {:induction false} EntriesSeen(o: Settings, s: State, w: Work, n: nat, luck: Luck, k: Key)
    requires n <= |o.entries| && AllDone(luck)
    requires SeeUser(w, k.user) == UserAfter(o, s, n, k.user) && SeeRule(w, k) == RuleAfter(o, s, n, k)
    ensures var v := ApplyFrom(o, w, n, luck);
            SeeUser(v, k.user) == UserAfter(o, s, |o.entries|, k.user) &&
            SeeRule(v, k) == RuleAfter(o, s, |o.entries|, k)
    decreases |o.entries| - n
  {
    if n < |o.entries| {
      UserStep(o, s, w, n, luck, k.user);
      RuleStep(o, s, w, n, luck, k);
      EntriesSeen(o, s, Step(o, w, n, luck), n + 1, luck, k);
    }
  }

  /** Without failures the result is decided user by user and rule by rule: a new user, the last password, the last
      permission of a rule that is new or owned by the options, and a hand-over of what is not named any more. */
  lemma SmoothResult(o: Settings, s: State, luck: Luck, u: string, topic: string)
    requires Smooth(luck)
    ensures var n, k, after := |o.entries|, Key(u, topic), Apply(o, s, luck);
            var v, r := UserAfter(o, s, n, u), RuleAfter(o, s, n, k);
            && At(after.users, u) == v.role && At(after.passwords, u) == v.password
            && At(after.userOrigins, u) == HandedUser(o, u, v.owner)
            && At(after.acl, k) == r.perm
            && At(after.aclOrigins, k) == HandedRule(r)
  {
    EntriesSeen(o, s, Begin(s, luck), 0, luck, Key(u, topic));
  }

  /** The same options applied to their own result change nothing, even with entries that contradict each other. */
  lemma SecondApplicationIsQuiet(o: Settings, s: State, first: Luck, second: Luck)
    requires Smooth(first) && Smooth(second)
    ensures Apply(o, Apply(o, s, first), second) == Apply(o, s, first)
  {
    var a := Apply(o, s, first);
    var b := Apply(o, a, second);
    forall u, t ensures SameAt(a, b, u, Key(u, t)) { QuietAt(o, s, first, second, u, t); }
    SameEverywhere(a, b);
    StashKept(o, Begin(s, first), 0, first);
    StashKept(o, Begin(a, second), 0, second);
  }

  ghost predicate SameAt(a: State, b: State, u: string, k: Key) {
    && At(a.users, u) == At(b.users, u) && At(a.passwords, u) == At(b.passwords, u)
    && At(a.userOrigins, u) == At(b.userOrigins, u)
    && At(a.acl, k) == At(b.acl, k) && At(a.aclOrigins, k) == At(b.aclOrigins, k)
  }

  /** The records at one user, and at one rule, after the hand-over. */
  ghost function HandedUser(o: Settings, u: string, owner: Option<Origin>): Option<Origin> {
    if owner.None? then None else Some(UserOrigin(o, u, owner.value))
  }

  ghost function HandedRule(r: RuleView): Option<Origin> {
    if r.owner == Some(Options) && !r.named then Some(Gui) else r.owner
  }

  lemma UserQuiet(o: Settings, s: State, a: State, u: string)
    requires var v := UserAfter(o, s, |o.entries|, u);
             At(a.users, u) == v.role && At(a.passwords, u) == v.password &&
             At(a.userOrigins, u) == HandedUser(o, u, v.owner)
    ensures var v := UserAfter(o, a, |o.entries|, u);
            At(a.users, u) == v.role && At(a.passwords, u) == v.password &&
            At(a.userOrigins, u) == HandedUser(o, u, v.owner)
  {
  }

  lemma RuleQuiet(o: Settings, s: State, a: State, k: Key)
    requires AdminIn(s, k.user) <==> AdminIn(a, k.user)
    requires var r := RuleAfter(o, s, |o.entries|, k); At(a.acl, k) == r.perm && At(a.aclOrigins, k) == HandedRule(r)
    ensures var r := RuleAfter(o, a, |o.entries|, k); At(a.acl, k) == r.perm && At(a.aclOrigins, k) == HandedRule(r)
  {
  }

  lemma QuietAt(o: Settings, s: State, first: Luck, second: Luck, u: string, t: string)
    requires Smooth(first) && Smooth(second)
    ensures SameAt(Apply(o, s, first), Apply(o, Apply(o, s, first), second), u, Key(u, t))
  {
    var a := Apply(o, s, first);
    SmoothResult(o, s, first, u, t);
    UserQuiet(o, s, a, u);
    RolesKept(o, s, a, u);
    RuleQuiet(o, s, a, Key(u, t));
    SmoothResult(o, a, second, u, t);
  }

  lemma RolesKept(o: Settings, s: State, a: State, u: string)
    requires At(a.users, u) == UserAfter(o, s, |o.entries|, u).role
    ensures AdminIn(s, u) <==> AdminIn(a, u)
  {
  }

  lemma MapsEqual<K, T>(a: map<K, T>, b: map<K, T>)
    requires forall k :: At(a, k) == At(b, k)
    ensures a == b
  {
    forall k ensures (k in a <==> k in b) && (k in a ==> a[k] == b[k]) { assert At(a, k) == At(b, k); }
  }

  lemma SameEverywhere(a: State, b: State)
    requires forall u, t :: SameAt(a, b, u, Key(u, t))
    ensures b == a.(stash := b.stash)
  {
    forall u ensures At(a.users, u) == At(b.users, u) && At(a.passwords, u) == At(b.passwords, u)
                  && At(a.userOrigins, u) == At(b.userOrigins, u) { assert SameAt(a, b, u, Key(u, "")); }
    forall k: Key ensures At(a.acl, k) == At(b.acl, k) && At(a.aclOrigins, k) == At(b.aclOrigins, k) {
      assert SameAt(a, b, k.user, Key(k.user, k.topic));
    }
    MapsEqual(a.users, b.users);
    MapsEqual(a.passwords, b.passwords);
    MapsEqual(a.userOrigins, b.userOrigins);
    MapsEqual(a.acl, b.acl);
    MapsEqual(a.aclOrigins, b.aclOrigins);
  }

  lemma StepStash(o: Settings, w: Work, i: nat, luck: Luck)
    requires i < |o.entries|
    ensures Step(o, w, i, luck).s.stash == w.s.stash
  {
    EntryMild(o, w, o.entries[i], luck, "", Key("", ""));
  }

  lemma {:induction false} StashKept(o: Settings, w: Work, i: nat, luck: Luck)
    requires i <= |o.entries|
    ensures ApplyFrom(o, w, i, luck).s.stash == w.s.stash
    decreases |o.entries| - i
  {
    if i < |o.entries| {
      StepStash(o, w, i, luck);
      StashKept(o, Step(o, w, i, luck), i + 1, luck);
    }
  }
}
