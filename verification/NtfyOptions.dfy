/** What an application of the options without failures leaves, user by user and rule by rule, said about the entries
    themselves (ntfy/app/baseline.py). */
module NtfyOptions {
  import opened Wrappers
  import opened NtfyState
  import opened NtfyBaseline

  /** Some entry names the user; entries that name the admin of the options are ignored. */
  ghost predicate IsNamed(o: Settings, u: string) {
    u != o.admin && exists i :: 0 <= i < |o.entries| && o.entries[i].username == u
  }

  predicate IsLast(o: Settings, u: string, i: nat) {
    && i < |o.entries| && o.entries[i].username == u
    && forall j :: i < j < |o.entries| ==> o.entries[j].username != u
  }

  predicate IsFirst(o: Settings, u: string, i: nat) {
    i < |o.entries| && o.entries[i].username == u && forall j :: 0 <= j < i ==> o.entries[j].username != u
  }

  /** The entry whose password a user gets. */
  predicate Counts(o: Settings, u: string, i: nat) { if o.overwrite then IsLast(o, u, i) else IsFirst(o, u, i) }

  predicate IsFor(e: Entry, k: Key) { e.username == k.user && e.topic == k.topic }

  /** Some entry names the rule, and the user is not an admin. */
  ghost predicate IsSet(o: Settings, s: State, k: Key) {
    && k.user != o.admin && k.topic != "" && (exists i :: 0 <= i < |o.entries| && IsFor(o.entries[i], k))
    && (k.user in s.users ==> s.users[k.user] != Admin)
  }

  predicate IsLastFor(o: Settings, k: Key, i: nat) {
    i < |o.entries| && IsFor(o.entries[i], k) && forall j :: i < j < |o.entries| ==> !IsFor(o.entries[j], k)
  }

  /** The rule is there and its record, or the lack of one, gives it to somebody else. */
  predicate IsForeign(s: State, k: Key) { k in s.acl && (k !in s.aclOrigins || s.aclOrigins[k] != Options) }

  predicate Alike<K, T(==)>(a: map<K, T>, b: map<K, T>, k: K) { (k in a <==> k in b) && (k in a ==> a[k] == b[k]) }

  // ---- Which entry counts ----

  lemma {:induction false} LastPasswordIs(o: Settings, n: nat, u: string, i: nat)
    requires n <= |o.entries| && i < n && o.entries[i].username == u
    requires forall j :: i < j < n ==> o.entries[j].username != u
    ensures LastPassword(o, n, u) == o.entries[i].password
  {
    if i < n - 1 { LastPasswordIs(o, n - 1, u, i); }
  }

  lemma {:induction false} FirstPasswordIs(o: Settings, n: nat, u: string, i: nat)
    requires n <= |o.entries| && i < n && IsFirst(o, u, i) && u != o.admin
    ensures FirstPassword(o, n, u) == o.entries[i].password
  {
    if i < n - 1 {
      FirstPasswordIs(o, n - 1, u, i);
      assert Names(o, n - 1, u);
    } else {
      assert !Names(o, n - 1, u);
    }
  }

  lemma {:induction false} LastPermIs(o: Settings, n: nat, k: Key, i: nat)
    requires n <= |o.entries| && i < n && IsFor(o.entries[i], k) && k.user != o.admin && k.topic != ""
    requires forall j :: i < j < n ==> !IsFor(o.entries[j], k)
    ensures LastPerm(o, n, k) == Some(if o.entries[i].write then Rw else Ro)
  {
    if i < n - 1 {
      assert KeyOf(o.entries[n - 1]) != k;
      LastPermIs(o, n - 1, k, i);
    } else {
      assert KeyOf(o.entries[i]) == k;
    }
  }

  lemma {:induction false} NoPerm(o: Settings, n: nat, k: Key)
    requires n <= |o.entries|
    requires k.user == o.admin || k.topic == "" || forall j :: 0 <= j < n ==> !IsFor(o.entries[j], k)
    ensures LastPerm(o, n, k) == None
  {
    if n > 0 { NoPerm(o, n - 1, k); }
  }

  lemma {:induction false} LastOf(o: Settings, k: Key, n: nat) returns (i: nat)
    requires n <= |o.entries| && exists j :: 0 <= j < n && IsFor(o.entries[j], k)
    ensures i < n && IsFor(o.entries[i], k) && forall j :: i < j < n ==> !IsFor(o.entries[j], k)
  {
    if IsFor(o.entries[n - 1], k) { i := n - 1; } else { i := LastOf(o, k, n - 1); }
  }

  lemma PermIs(o: Settings, s: State, k: Key)
    ensures var n := |o.entries|;
            && (LastPerm(o, n, k).Some? && !AdminIn(s, k.user) <==> IsSet(o, s, k))
            && (IsSet(o, s, k) ==> forall i: nat :: IsLastFor(o, k, i) ==>
                  LastPerm(o, n, k) == Some(if o.entries[i].write then Rw else Ro))
  {
    var n := |o.entries|;
    if k.user != o.admin && k.topic != "" && exists j :: 0 <= j < n && IsFor(o.entries[j], k) {
      var i := LastOf(o, k, n);
      LastPermIs(o, n, k, i);
      forall j: nat | IsLastFor(o, k, j) ensures LastPerm(o, n, k) == Some(if o.entries[j].write then Rw else Ro) {
        LastPermIs(o, n, k, j);
      }
    } else {
      NoPerm(o, n, k);
    }
  }

  // ---- The results ----

  /** Users: nobody changes role or goes away; a named user that is missing is made, belongs to the options and has the
      password of its first entry, or of its last one if passwords are overwritten; with that setting a named user that
      was there gets the last password too, unless it is an admin; records of the options for users that are not named
      any more go over to the gui. */
  lemma UsersMean(o: Settings, s: State, luck: Luck, u: string)
    requires Smooth(luck)
    ensures var t, new_ := Apply(o, s, luck), IsNamed(o, u) && u !in s.users;
            && (if new_ then u in t.users && t.users[u] == User else Alike(s.users, t.users, u))
            && (if new_ || (IsNamed(o, u) && s.users[u] != Admin && o.overwrite)
                then u in t.passwords && forall i: nat :: Counts(o, u, i) ==> t.passwords[u] == o.entries[i].password
                else Alike(s.passwords, t.passwords, u))
            && (if new_ then u in t.userOrigins && t.userOrigins[u] == Options
                else if u in s.userOrigins && s.userOrigins[u] == Options && u != o.admin && !IsNamed(o, u)
                then u in t.userOrigins && t.userOrigins[u] == Gui
                else Alike(s.userOrigins, t.userOrigins, u))
  {
    SmoothResult(o, s, luck, u, "");
    NamedIs(o, u);
    ViewOfUser(o, s, u);
    if IsNamed(o, u) { PasswordIs(o, u); }
  }

  lemma NamedIs(o: Settings, u: string)
    ensures Names(o, |o.entries|, u) <==> IsNamed(o, u)
  {
  }

  /** What the smooth result says of one user. */
  lemma ViewOfUser(o: Settings, s: State, u: string)
    ensures var n := |o.entries|; var v, new_ := UserAfter(o, s, n, u), IsNamed(o, u) && u !in s.users;
            && v.role == (if new_ then Some(User) else At(s.users, u))
            && v.password == (if new_ && !o.overwrite then Some(FirstPassword(o, n, u))
                              else if new_ || (IsNamed(o, u) && s.users[u] != Admin && o.overwrite)
                              then Some(LastPassword(o, n, u))
                              else At(s.passwords, u))
            && v.owner == (if new_ then Some(Options) else At(s.userOrigins, u))
  {
    NamedIs(o, u);
  }

  lemma PasswordIs(o: Settings, u: string)
    requires IsNamed(o, u)
    ensures forall i: nat :: Counts(o, u, i) ==>
              o.entries[i].password ==
                if o.overwrite then LastPassword(o, |o.entries|, u) else FirstPassword(o, |o.entries|, u)
  {
    forall i: nat | Counts(o, u, i)
      ensures o.entries[i].password ==
                if o.overwrite then LastPassword(o, |o.entries|, u) else FirstPassword(o, |o.entries|, u)
    {
      if o.overwrite { LastPasswordIs(o, |o.entries|, u, i); } else { FirstPasswordIs(o, |o.entries|, u, i); }
    }
  }

  /** Rules: a rule that entries set is there with the permission of the last of them, unless it belongs to somebody
      else; every other rule stays as it is; new ones belong to the options, and what they no longer set goes to the
      gui. */
  lemma RulesMean(o: Settings, s: State, luck: Luck, k: Key)
    requires Smooth(luck)
    ensures var t := Apply(o, s, luck);
            && (if IsSet(o, s, k) && !IsForeign(s, k)
                then k in t.acl &&
                     forall i: nat :: IsLastFor(o, k, i) ==> t.acl[k] == (if o.entries[i].write then Rw else Ro)
                else Alike(s.acl, t.acl, k))
            && (if IsSet(o, s, k) && k !in s.acl then k in t.aclOrigins && t.aclOrigins[k] == Options
                else if k in s.aclOrigins && s.aclOrigins[k] == Options && !IsSet(o, s, k)
                then k in t.aclOrigins && t.aclOrigins[k] == Gui
                else Alike(s.aclOrigins, t.aclOrigins, k))
  {
    SmoothResult(o, s, luck, k.user, k.topic);
    PermIs(o, s, k);
    assert Key(k.user, k.topic) == k;
  }
}
