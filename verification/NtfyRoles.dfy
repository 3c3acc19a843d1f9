/** Rules over a promotion and a later demotion: what comes back, what is lost, and what is kept for later. */
module NtfyRoles {
  import opened NtfyState
  import opened NtfyAccounts

  /** The user has the same rules with the same permissions, and every topic the same origin. */
  ghost predicate SameRules(a: State, b: State, name: string) {
    forall t :: SameAt(a, b, Key(name, t))
  }

  ghost predicate SameAt(a: State, b: State, k: Key) {
    (k in a.acl <==> k in b.acl) && (k in a.acl ==> a.acl[k] == b.acl[k]) && GetAcl(a, k) == GetAcl(b, k)
  }

  // ---- A demotion, whatever fails ----

  /** How many rules are restored before the first command or record that does not work. */
  ghost function Through(luck: Luck, n: nat, i: nat): (k: nat)
    requires i <= n
    ensures i <= k <= n && (forall j :: i <= j < k ==> Works(luck, j)) && (k < n ==> !Works(luck, k))
    decreases n - i
  {
    if i < n && Works(luck, i) then Through(luck, n, i + 1) else i
  }

  /** The rest of the stash goes back to it: a command stops the loop, and the write in its handler takes effect. */
  ghost predicate Returns(luck: Luck, i: nat) { FateAt(luck, i + 1) != Done && WriteAt(luck, i + 1) != Rejected }

  /** The loop stops behind a rule whose record has changed, though saving it failed. */
  ghost predicate LateStop(luck: Luck, i: nat) { FateAt(luck, i + 1) == Done && WriteAt(luck, i + 1) == Lost }

  /** The demotion itself is allowed and its command works. */
  ghost predicate Taken(luck: Luck) { luck.supported && FateAt(luck, 0) == Done }

  /** The stash is not taken out, or a command stops the loop at this rule and the rest is put back. */
  ghost predicate RestIsKept(luck: Luck, stop: nat) {
    !Taken(luck) || WriteAt(luck, 0) == Rejected || (WriteAt(luck, 0) == Done && Returns(luck, stop))
  }

  /** How many of `n` stashed rules are back, each with its record. */
  ghost function Restored(luck: Luck, n: nat): (k: nat)
    ensures k <= n
  {
    var f := Through(luck, n, 0);
    if !Taken(luck) || WriteAt(luck, 0) != Done then 0 else if f < n && LateStop(luck, f) then f + 1 else f
  }

  ghost predicate OncePerTopic(pending: seq<Saved>) {
    forall i, j :: 0 <= i < j < |pending| ==> pending[i].topic != pending[j].topic
  }

  /** The topic is that of one of the rules `from..=to`. */
  ghost predicate Among(pending: seq<Saved>, topic: string, from: nat, to: nat) {
    exists j :: from <= j <= to && j < |pending| && pending[j].topic == topic
  }

  /** The rule of `pending[j]` stands as it was saved. */
  ghost predicate Stands(s: State, name: string, r: Saved) {
    var k := Key(name, r.topic); k in s.acl && s.acl[k] == r.perm && k in s.aclOrigins && s.aclOrigins[k] == r.origin
  }

  ghost predicate Untouched(a: State, b: State, k: Key) {
    (k in a.acl <==> k in b.acl) && (k in a.acl ==> a.acl[k] == b.acl[k])
    && (k in a.aclOrigins <==> k in b.aclOrigins) && (k in a.aclOrigins ==> a.aclOrigins[k] == b.aclOrigins[k])
  }

  ghost function After(s: State, name: string, r: Saved): State {
    Record(Access(s, name, r), name, r)
  }

  lemma AfterTouches(s: State, name: string, r: Saved)
    ensures var end := After(s, name, r);
            && end.users == s.users && end.stash == s.stash && Stands(end, name, r)
            && (forall k: Key :: k in s.acl ==> k in end.acl)
            && forall k: Key :: k != Key(name, r.topic) ==> Untouched(s, end, k)
  {
  }

  lemma AccessTouches(s: State, name: string, r: Saved)
    ensures var end := Access(s, name, r);
            && end.users == s.users && end.stash == s.stash
            && (forall k: Key :: k in s.acl ==> k in end.acl)
            && forall k: Key :: k != Key(name, r.topic) ==> Untouched(s, end, k)
  {
  }

  lemma StopCases(s: State, name: string, pending: seq<Saved>, i: nat, luck: Luck)
    requires i < |pending| && !Works(luck, i)
    ensures var (end, r) := Stop(s, name, pending, i, luck);
            var base := if FateAt(luck, i + 1) == Rejected then s else Access(s, name, pending[i]);
            r.Err? && end == if Returns(luck, i) then base.(stash := base.stash[name := pending[i..]])
                             else if LateStop(luck, i) then After(s, name, pending[i]) else base
  {
  }

  /** The step that stops the loop. */
  lemma StopTouches(s: State, name: string, pending: seq<Saved>, i: nat, luck: Luck)
    requires i < |pending| && !Works(luck, i)
    ensures var (end, r) := Stop(s, name, pending, i, luck);
            && end.users == s.users && r.Err?
            && end.stash == (if Returns(luck, i) then s.stash[name := pending[i..]] else s.stash)
            && (LateStop(luck, i) ==> Stands(end, name, pending[i]))
            && (forall k: Key :: k in s.acl ==> k in end.acl)
            && forall k: Key :: k != Key(name, pending[i].topic) ==> Untouched(s, end, k)
  {
    StopCases(s, name, pending, i, luck);
    AccessTouches(s, name, pending[i]);
    AfterTouches(s, name, pending[i]);
  }

  /** Only rules of the list, up to the one that failed, are touched. */
  lemma {:induction false} RestoreFrame(s: State, name: string, pending: seq<Saved>, i: nat, luck: Luck)
    requires i <= |pending|
    ensures var end := Restore(s, name, pending, i, luck).0;
            && end.users == s.users && (forall k: Key :: k in s.acl ==> k in end.acl)
            && (forall u :: u != name ==> Pending(end, u) == Pending(s, u))
            && forall k: Key :: k.user != name || !Among(pending, k.topic, i, Through(luck, |pending|, i)) ==>
                 Untouched(s, end, k)
    decreases |pending| - i
  {
    if i < |pending| {
      var end := Restore(s, name, pending, i, luck).0;
      var next := After(s, name, pending[i]);
      if Works(luck, i) {
        AfterTouches(s, name, pending[i]);
        RestoreFrame(next, name, pending, i + 1, luck);
      } else {
        StopTouches(s, name, pending, i, luck);
      }
      forall k: Key | k.user != name || !Among(pending, k.topic, i, Through(luck, |pending|, i))
        ensures Untouched(s, end, k)
      {
        assert k != Key(name, pending[i].topic);
        assert Works(luck, i) ==> Untouched(s, next, k) && Untouched(next, end, k);
      }
    }
  }

  /** What stands after the loop, and what is stashed again. */
  lemma {:induction false} RestoreSplits(s: State, name: string, pending: seq<Saved>, i: nat, luck: Luck)
    requires i <= |pending| && OncePerTopic(pending) && name !in s.stash
    ensures var f := Through(luck, |pending|, i); var (end, r) := Restore(s, name, pending, i, luck);
            && end.stash == (if f < |pending| && Returns(luck, f) then s.stash[name := pending[f..]] else s.stash)
            && (r.Ok? <==> f == |pending|)
            && (forall j :: i <= j < f ==> Stands(end, name, pending[j]))
            && (f < |pending| && LateStop(luck, f) ==> Stands(end, name, pending[f]))
    decreases |pending| - i
  {
    if i < |pending| {
      if Works(luck, i) {
        var next := After(s, name, pending[i]);
        AfterTouches(s, name, pending[i]);
        RestoreSplits(next, name, pending, i + 1, luck);
        RestoreFrame(next, name, pending, i + 1, luck);
        assert Untouched(next, Restore(next, name, pending, i + 1, luck).0, Key(name, pending[i].topic));
      } else {
        StopTouches(s, name, pending, i, luck);
      }
    }
  }

  /** A demotion restores a prefix of the stash exactly as it was saved, and leaves other users alone. The rest is still
      stashed exactly when nothing was left, or the demotion did not get that far, or a command stopped the loop and the
      rest could be put back: a record that cannot be written loses the rules behind it. */
  ghost predicate Conserves(admin: string, s: State, name: string, luck: Luck) {
    var saved := Pending(s, name); var k := Restored(luck, |saved|); var f := Through(luck, |saved|, 0);
    var (end, r) := Next(admin, s, ChangeRole(name, User), luck);
    && (forall j :: 0 <= j < k ==> Stands(end, name, saved[j]))
    && (saved[..k] + Pending(end, name) == saved <==>
          k == |saved| || RestIsKept(luck, f))
    && (r.Ok? <==> Taken(luck) && WriteAt(luck, 0) == Done && f == |saved|)
    && (forall u: Key :: u.user != name ==> Untouched(s, end, u))
  }

  lemma RestIsStashed(admin: string, s: State, name: string, luck: Luck)
    requires IsAdmin(s, name) && !IsProtected(admin, s, name)
    requires OncePerTopic(Pending(s, name))
    ensures var saved := Pending(s, name); var k := Restored(luck, |saved|); var f := Through(luck, |saved|, 0);
            var (end, r) := Next(admin, s, ChangeRole(name, User), luck);
            saved[..k] + Pending(end, name) == saved <==> k == |saved| || RestIsKept(luck, f)
  {
    var saved := Pending(s, name); var k := Restored(luck, |saved|); var f := Through(luck, |saved|, 0);
    var rest := Pending(Next(admin, s, ChangeRole(name, User), luck).0, name);
    RestIs(admin, s, name, luck);
    assert |saved[..k] + rest| == k + |rest|;
  }

  /** What is stashed after a demotion. */
  lemma RestIs(admin: string, s: State, name: string, luck: Luck)
    requires IsAdmin(s, name) && !IsProtected(admin, s, name)
    requires OncePerTopic(Pending(s, name))
    ensures var saved := Pending(s, name); var f := Through(luck, |saved|, 0);
            Pending(Next(admin, s, ChangeRole(name, User), luck).0, name) ==
              if !Taken(luck) || WriteAt(luck, 0) == Rejected then saved
              else if WriteAt(luck, 0) == Done && f < |saved| && Returns(luck, f) then saved[f..]
              else []
  {
    DemoteCases(s, name, luck);
    RestoreSplits(Popped(s, name), name, Pending(s, name), 0, luck);
    var end := Next(admin, s, ChangeRole(name, User), luck).0;
    assert end == if luck.supported then Demote(s, name, luck).0 else s;
  }

  lemma PrefixStands(admin: string, s: State, name: string, luck: Luck)
    requires IsAdmin(s, name) && !IsProtected(admin, s, name)
    requires OncePerTopic(Pending(s, name))
    ensures var saved := Pending(s, name);
            var (end, r) := Next(admin, s, ChangeRole(name, User), luck);
            && (forall j :: 0 <= j < Restored(luck, |saved|) ==> Stands(end, name, saved[j]))
            && (r.Ok? <==> Taken(luck) && WriteAt(luck, 0) == Done && Through(luck, |saved|, 0) == |saved|)
  {
    DemoteCases(s, name, luck);
    RestoreSplits(Popped(s, name), name, Pending(s, name), 0, luck);
    assert luck.supported ==> Next(admin, s, ChangeRole(name, User), luck) == Demote(s, name, luck);
  }

  lemma DemotionConserves(admin: string, s: State, name: string, luck: Luck)
    requires IsAdmin(s, name) && !IsProtected(admin, s, name)
    requires OncePerTopic(Pending(s, name))
    ensures Conserves(admin, s, name, luck)
  {
    PrefixStands(admin, s, name, luck);
    RestIsStashed(admin, s, name, luck);
    forall u: Key | u.user != name ensures Untouched(s, Next(admin, s, ChangeRole(name, User), luck).0, u) {
      OthersUntouched(admin, s, ChangeRole(name, User), luck, u.user);
      assert Untouched(s, Next(admin, s, ChangeRole(name, User), luck).0, Key(u.user, u.topic));
    }
  }

  /** The failure at one input: the second rule of a stash is gone when the record of the first cannot be written. */
  lemma LossyDemotion()
    ensures var saved := [Saved("a", Rw, Iac), Saved("b", Ro, Gui)];
            var s := State(map["ann" := Admin, "bob" := Admin], map[], map[], map[], map[], map["ann" := saved]);
            var end := Next("bob", s, ChangeRole("ann", User), Luck(true, true, [], [Done, Rejected], [])).0;
            Key("ann", "a") in end.acl && Key("ann", "b") !in end.acl && Pending(end, "ann") == []
  {
    var saved := [Saved("a", Rw, Iac), Saved("b", Ro, Gui)];
    var s := State(map["ann" := Admin, "bob" := Admin], map[], map[], map[], map[], map["ann" := saved]);
    var luck := Luck(true, true, [], [Done, Rejected], []);
    assert "ann" in Admins(s) && "bob" in Admins(s);
    assert Next("bob", s, ChangeRole("ann", User), luck) == Demote(s, "ann", luck);
    DemoteCases(s, "ann", luck);
    assert !Works(luck, 0);
  }

  // ---- Promote, anything else, demote ----

  /** Calls that do not delete the user or change its role. */
  ghost predicate Aside(calls: seq<Call>, name: string) {
    forall i :: 0 <= i < |calls| ==> AsideOp(calls[i].op, name)
  }

  ghost predicate AsideOp(op: Op, name: string) { op.name == name ==> !op.Delete? && !op.ChangeRole? }

  /** The user is an admin without rules, and neither its stash nor its origin records have changed. */
  ghost predicate Held(a: State, b: State, name: string) {
    && IsAdmin(b, name) && Pending(b, name) == Pending(a, name)
    && forall t :: Key(name, t) !in b.acl && GetAcl(b, Key(name, t)) == GetAcl(a, Key(name, t))
  }

  lemma HeldOverStep(admin: string, a: State, s: State, op: Op, luck: Luck, name: string)
    requires Held(a, s, name) && AsideOp(op, name) && name != "everyone"
    ensures Held(a, Next(admin, s, op, luck).0, name)
  {
    var next := Next(admin, s, op, luck).0;
    if op.name != name {
      OthersUntouched(admin, s, op, luck, name);
    } else if op.RemoveRule? {
      assert Key(name, op.topic) !in s.acl;
    }
  }

  /** A call about one user leaves role, stash, rules and origins of every other user alone. */
  lemma OthersUntouched(admin: string, s: State, op: Op, luck: Luck, name: string)
    requires op.name != name
    ensures Spared(s, Next(admin, s, op, luck).0, name)
  {
    match op {
      case Create(_, _, _) => CreateSpares(s, op, luck, name);
      case Delete(_, _) => DeleteSpares(admin, s, op, luck, name);
      case ChangeRole(user, _) => PromoteSpares(s, user, luck, name); DemoteSpares(s, user, luck, name);
      case SetRule(_, _, _) => RuleSpares(s, op, luck, name);
      case RemoveRule(_, _) => RemoveSpares(s, op, luck, name);
    }
    SparedSame(s, name);
    NextIsOne(admin, s, op, luck);
  }

  lemma SparedSame(s: State, name: string)
    ensures Spared(s, s, name)
  {
  }

  lemma NextIsOne(admin: string, s: State, op: Op, luck: Luck)
    ensures var next := Next(admin, s, op, luck).0;
            next == s || match op
              case Create(_, _, _) => next == NextCreate(s, op, luck).0
              case Delete(_, _) => next == NextDelete(admin, s, op, luck).0
              case ChangeRole(user, _) => next == Promote(s, user, luck).0 || next == Demote(s, user, luck).0
              case SetRule(_, _, _) => next == NextRule(s, op, luck).0
              case RemoveRule(_, _) => next == NextRemove(s, op, luck).0
  {
  }

  /** Nothing about another user changes. */
  ghost predicate Spared(s: State, next: State, name: string) {
    && (name in s.users <==> name in next.users) && (name in s.users ==> next.users[name] == s.users[name])
    && Pending(next, name) == Pending(s, name)
    && forall t :: Untouched(s, next, Key(name, t))
  }

  lemma CreateSpares(s: State, op: Op, luck: Luck, name: string)
    requires op.Create? && op.name != name
    ensures Spared(s, NextCreate(s, op, luck).0, name)
  {
    var after := AddUser(s, op.name, op.password, op.role);
    var next := NextCreate(s, op, luck).0;
    assert next == s || next == after || next == after.(userOrigins := after.userOrigins[op.name := Gui]);
  }

  lemma DeleteCases(admin: string, s: State, op: Op, luck: Luck)
    requires op.Delete?
    ensures var after, next := DeleteUser(s, op.name), NextDelete(admin, s, op, luck).0;
            next == s || next == after || next == DropUser(after, op.name)
  {
  }

  lemma DeleteSpares(admin: string, s: State, op: Op, luck: Luck, name: string)
    requires op.Delete? && op.name != name
    ensures Spared(s, NextDelete(admin, s, op, luck).0, name)
  {
    DeleteCases(admin, s, op, luck);
    SparedSame(s, name);
    DeletedSpares(s, op.name, name);
  }

  lemma DeletedSpares(s: State, user: string, name: string)
    requires user != name
    ensures Spared(s, DeleteUser(s, user), name) && Spared(s, DropUser(DeleteUser(s, user), user), name)
  {
  }

  lemma RuleCases(s: State, op: Op, luck: Luck)
    requires op.SetRule?
    ensures var k, next := Key(op.name, op.topic), NextRule(s, op, luck).0; var after := SetAccess(s, k, op.perm);
            next == s || next == after || next == SetOrigin(after, k, Gui) || next == SetOrigin(after, k, Iac)
  {
  }

  lemma SetSpares(s: State, k: Key, p: Perm, o: Origin, name: string)
    requires k.user != name
    ensures Spared(s, SetAccess(s, k, p), name) && Spared(s, SetOrigin(SetAccess(s, k, p), k, o), name)
  {
  }

  lemma RuleSpares(s: State, op: Op, luck: Luck, name: string)
    requires op.SetRule? && op.name != name
    ensures Spared(s, NextRule(s, op, luck).0, name)
  {
    RuleCases(s, op, luck);
    SparedSame(s, name);
    SetSpares(s, Key(op.name, op.topic), op.perm, Gui, name);
    SetSpares(s, Key(op.name, op.topic), op.perm, Iac, name);
  }

  lemma RemoveCases(s: State, op: Op, luck: Luck)
    requires op.RemoveRule?
    ensures var k, next := Key(op.name, op.topic), NextRemove(s, op, luck).0; var after := ResetAccess(s, k);
            next == s || next == after || next == after.(aclOrigins := after.aclOrigins - {k})
  {
  }

  lemma ResetSpares(s: State, k: Key, name: string)
    requires k.user != name
    ensures var after := ResetAccess(s, k);
            Spared(s, after, name) && Spared(s, after.(aclOrigins := after.aclOrigins - {k}), name)
  {
  }

  lemma RemoveSpares(s: State, op: Op, luck: Luck, name: string)
    requires op.RemoveRule? && op.name != name
    ensures Spared(s, NextRemove(s, op, luck).0, name)
  {
    RemoveCases(s, op, luck);
    SparedSame(s, name);
    ResetSpares(s, Key(op.name, op.topic), name);
  }

  ghost function Stashed(s: State, user: string, rows: seq<Row>): State {
    var after := SetRole(s, user, Admin); after.(stash := after.stash[user := SavedRows(s, user, rows)])
  }

  lemma PromoteCases(s: State, user: string, luck: Luck)
    ensures var next := Promote(s, user, luck).0;
            || next == s || next == SetRole(s, user, Admin) || next == Stashed(s, user, luck.listing)
            || next == DropRows(Stashed(s, user, luck.listing), user, luck.listing, 0, luck).0
  {
  }

  /** Dropping records changes records of this user only. */
  lemma {:induction false} DropTouches(s: State, user: string, rows: seq<Row>, i: nat, luck: Luck)
    requires i <= |rows|
    ensures var end := DropRows(s, user, rows, i, luck).0;
            end == s.(aclOrigins := end.aclOrigins) && forall k: Key :: k.user != user ==> Untouched(s, end, k)
    decreases |rows| - i
  {
    if i < |rows| && WriteAt(luck, i + 1) == Done {
      var next := DropRow(s, user, rows[i]);
      DropTouches(next, user, rows, i + 1, luck);
      forall k: Key | k.user != user ensures Untouched(s, DropRows(s, user, rows, i, luck).0, k) {
        assert Untouched(s, next, k);
      }
    }
  }

  lemma PromotedSpares(s: State, user: string, luck: Luck, name: string)
    requires user != name
    ensures Spared(s, SetRole(s, user, Admin), name) && Spared(s, Stashed(s, user, luck.listing), name)
    ensures Spared(s, DropRows(Stashed(s, user, luck.listing), user, luck.listing, 0, luck).0, name)
  {
    var stashed := Stashed(s, user, luck.listing);
    DropTouches(stashed, user, luck.listing, 0, luck);
    forall t ensures Untouched(s, DropRows(stashed, user, luck.listing, 0, luck).0, Key(name, t)) {
      assert Untouched(s, stashed, Key(name, t));
    }
  }

  lemma PromoteSpares(s: State, user: string, luck: Luck, name: string)
    requires user != name
    ensures Spared(s, Promote(s, user, luck).0, name)
  {
    PromoteCases(s, user, luck);
    SparedSame(s, name);
    PromotedSpares(s, user, luck, name);
  }

  ghost function Popped(s: State, user: string): State {
    var after := SetRole(s, user, User); after.(stash := after.stash - {user})
  }

  lemma DemoteCases(s: State, user: string, luck: Luck)
    ensures var (next, r) := Demote(s, user, luck);
            if FateAt(luck, 0) != Done then r.Err? && (next == s || next == SetRole(s, user, User))
            else if WriteAt(luck, 0) == Rejected then r.Err? && next == SetRole(s, user, User)
            else if WriteAt(luck, 0) == Lost then r.Err? && next == Popped(s, user)
            else (next, r) == Restore(Popped(s, user), user, Pending(s, user), 0, luck)
  {
  }

  lemma DemotedSpares(s: State, user: string, name: string)
    requires user != name
    ensures Spared(s, SetRole(s, user, User), name) && Spared(s, Popped(s, user), name)
  {
  }

  lemma RestoreSpares(s: State, user: string, luck: Luck, name: string)
    requires user != name
    ensures Spared(s, Restore(Popped(s, user), user, Pending(s, user), 0, luck).0, name)
  {
    RestoreFrame(Popped(s, user), user, Pending(s, user), 0, luck);
    DemotedSpares(s, user, name);
    var end := Restore(Popped(s, user), user, Pending(s, user), 0, luck).0;
    forall t ensures Untouched(s, end, Key(name, t)) {
      assert Untouched(s, Popped(s, user), Key(name, t)) && Untouched(Popped(s, user), end, Key(name, t));
    }
  }

  lemma DemoteSpares(s: State, user: string, luck: Luck, name: string)
    requires user != name
    ensures Spared(s, Demote(s, user, luck).0, name)
  {
    DemoteCases(s, user, luck);
    SparedSame(s, name);
    DemotedSpares(s, user, name);
    RestoreSpares(s, user, luck, name);
  }

  lemma {:induction false} HeldOverRun(admin: string, a: State, s: State, calls: seq<Call>, name: string)
    requires Held(a, s, name) && Aside(calls, name) && name != "everyone"
    ensures Held(a, Run(admin, s, calls), name)
    decreases |calls|
  {
    if calls != [] {
      HeldOverStep(admin, a, s, calls[0].op, calls[0].luck, name);
      HeldOverRun(admin, a, Next(admin, s, calls[0].op, calls[0].luck).0, calls[1..], name);
    }
  }

  /** Neither a command of the call nor a write of the sidecar fails. */
  ghost predicate Smooth(luck: Luck) {
    && luck.supported && luck.backup
    && (forall i :: 0 <= i < |luck.fates| ==> luck.fates[i] == Done)
    && (forall i :: 0 <= i < |luck.writes| ==> luck.writes[i] == Done)
  }

  /** The rules as a promotion saves them. */
  lemma SavedRowsAre(s: State, name: string, rows: seq<Row>)
    requires Lists(rows, s, name)
    ensures OncePerTopic(SavedRows(s, name, rows)) && |SavedRows(s, name, rows)| == |rows|
    ensures forall t :: Key(name, t) in s.acl <==> exists i :: 0 <= i < |rows| && rows[i].topic == t
  {
    forall t | Key(name, t) in s.acl ensures exists i :: 0 <= i < |rows| && rows[i].topic == t {}
    forall t | exists i :: 0 <= i < |rows| && rows[i].topic == t ensures Key(name, t) in s.acl {}
  }

  /** Promoting a user, any calls that leave its account alone, and demoting it again, each without a failure of its
      own, gives back its exact rules and origins; the only exception is a user without rules for whom an earlier failed
      demotion has left a stash. */
  lemma RoleRoundTrip(admin: string, s: State, name: string, up: Luck, calls: seq<Call>, down: Luck)
    requires name in s.users && s.users[name] == User && name != "everyone"
    requires Lists(up.listing, s, name) && Smooth(up) && Smooth(down) && Aside(calls, name)
    requires var held := Run(admin, Next(admin, s, ChangeRole(name, Admin), up).0, calls);
             !IsProtected(admin, held, name)
    ensures var held := Run(admin, Next(admin, s, ChangeRole(name, Admin), up).0, calls);
            var end := Next(admin, held, ChangeRole(name, User), down).0;
            SameRules(s, end, name) <==> up.listing != [] || Pending(s, name) == []
  {
    var promoted := Next(admin, s, ChangeRole(name, Admin), up).0;
    var rows := up.listing;
    SavedRowsAre(s, name, rows);
    AfterPromotion(admin, s, name, up);
    HeldOverRun(admin, promoted, promoted, calls, name);
    var held := Run(admin, promoted, calls);
    if rows != [] {
      RulesComeBack(admin, s, name, up, held, down);
    } else if Pending(s, name) != [] {
      var t := Pending(s, name)[0].topic;
      RestoreAdds(Popped(held, name), name, Pending(s, name), down);
      assert !SameAt(s, Next(admin, held, ChangeRole(name, User), down).0, Key(name, t));
    } else {
      forall t ensures SameAt(s, Next(admin, held, ChangeRole(name, User), down).0, Key(name, t)) {}
    }
  }

  lemma AfterPromotion(admin: string, s: State, name: string, up: Luck)
    requires name in s.users && s.users[name] == User && name != "everyone"
    requires Lists(up.listing, s, name) && Smooth(up)
    ensures var p := Next(admin, s, ChangeRole(name, Admin), up).0;
            && Held(p, p, name)
            && Pending(p, name) == (if up.listing == [] then Pending(s, name) else SavedRows(s, name, up.listing))
            && forall t :: Key(name, t) !in s.acl ==> GetAcl(p, Key(name, t)) == GetAcl(s, Key(name, t))
  {
    assert FateAt(up, 0) == Done && WriteAt(up, 0) == Done;
    if up.listing != [] { DropListed(s, Stashed(s, name, up.listing), name, up.listing, 0, up); }
  }

  /** Only records of listed rules are dropped. */
  lemma {:induction false} DropListed(s: State, a: State, name: string, rows: seq<Row>, i: nat, luck: Luck)
    requires i <= |rows| && forall j :: 0 <= j < |rows| ==> Key(name, rows[j].topic) in s.acl
    ensures var end := DropRows(a, name, rows, i, luck).0;
            end == a.(aclOrigins := end.aclOrigins) && forall k :: k !in s.acl ==> GetAcl(end, k) == GetAcl(a, k)
    decreases |rows| - i
  {
    if i < |rows| && WriteAt(luck, i + 1) == Done { DropListed(s, DropRow(a, name, rows[i]), name, rows, i + 1, luck); }
  }

  lemma {:induction false} AllRestored(luck: Luck, n: nat, i: nat)
    requires Smooth(luck) && i <= n
    ensures Through(luck, n, i) == n
    decreases n - i
  {
    if i < n { assert Works(luck, i); AllRestored(luck, n, i + 1); }
  }

  lemma TopicComesBack(s: State, name: string, rows: seq<Row>, promoted: State, held: State, cleared: State,
      end: State, t: string)
    requires Lists(rows, s, name) && Held(promoted, held, name)
    requires Key(name, t) !in s.acl ==> GetAcl(promoted, Key(name, t)) == GetAcl(s, Key(name, t))
    requires cleared.acl == held.acl && cleared.aclOrigins == held.aclOrigins
    requires forall j :: 0 <= j < |rows| ==> Stands(end, name, SavedRows(s, name, rows)[j])
    requires !Among(SavedRows(s, name, rows), t, 0, |rows|) ==> Untouched(cleared, end, Key(name, t))
    ensures SameAt(s, end, Key(name, t))
  {
    if Key(name, t) in s.acl {
      var i :| 0 <= i < |rows| && rows[i].topic == t;
      assert Stands(end, name, SavedRows(s, name, rows)[i]);
    } else {
      assert !Among(SavedRows(s, name, rows), t, 0, |rows|);
    }
  }

  lemma RulesComeBack(admin: string, s: State, name: string, up: Luck, held: State, down: Luck)
    requires name in s.users && s.users[name] == User && name != "everyone" && up.listing != []
    requires Lists(up.listing, s, name) && Smooth(up) && Smooth(down)
    requires Held(Next(admin, s, ChangeRole(name, Admin), up).0, held, name) && !IsProtected(admin, held, name)
    ensures SameRules(s, Next(admin, held, ChangeRole(name, User), down).0, name)
  {
    var rows, saved := up.listing, SavedRows(s, name, up.listing);
    SavedRowsAre(s, name, rows);
    AfterPromotion(admin, s, name, up);
    SmoothDemotion(held, name, down);
    var promoted, end := Next(admin, s, ChangeRole(name, Admin), up).0, Demote(held, name, down).0;
    assert end == Next(admin, held, ChangeRole(name, User), down).0;
    forall t ensures SameAt(s, end, Key(name, t)) {
      TopicComesBack(s, name, rows, promoted, held, Popped(held, name), end, t);
    }
  }

  /** Without failures a whole stash comes back, and nothing else changes. */
  lemma SmoothDemotion(s: State, name: string, luck: Luck)
    requires Smooth(luck) && OncePerTopic(Pending(s, name))
    ensures var saved, end := Pending(s, name), Demote(s, name, luck).0;
            && (forall j :: 0 <= j < |saved| ==> Stands(end, name, saved[j]))
            && forall t :: !Among(saved, t, 0, |saved|) ==> Untouched(Popped(s, name), end, Key(name, t))
  {
    assert FateAt(luck, 0) == Done && WriteAt(luck, 0) == Done;
    DemoteCases(s, name, luck);
    RestoreSplits(Popped(s, name), name, Pending(s, name), 0, luck);
    RestoreFrame(Popped(s, name), name, Pending(s, name), 0, luck);
    AllRestored(luck, |Pending(s, name)|, 0);
  }

  /** The first rule of a stash is back after a demotion without failures. */
  lemma RestoreAdds(s: State, name: string, pending: seq<Saved>, luck: Luck)
    requires Smooth(luck) && pending != []
    ensures Key(name, pending[0].topic) in Restore(s, name, pending, 0, luck).0.acl
  {
    assert Works(luck, 0);
    AfterTouches(s, name, pending[0]);
    RestoreFrame(After(s, name, pending[0]), name, pending, 1, luck);
  }

  // ---- Admins ----

  /** Whatever fails, a call changes the role of the user it names at most, and never one that is protected. */
  lemma OnlyUnprotectedFall(admin: string, s: State, op: Op, luck: Luck, name: string)
    requires IsAdmin(s, name)
    ensures IsAdmin(Next(admin, s, op, luck).0, name) || (op.name == name && !IsProtected(admin, s, name))
  {
    if op.name != name {
      OthersUntouched(admin, s, op, luck, name);
    } else if IsProtected(admin, s, name) {
      ProtectedStays(admin, s, op, luck);
    }
  }

  lemma ProtectedStays(admin: string, s: State, op: Op, luck: Luck)
    requires IsAdmin(s, op.name) && IsProtected(admin, s, op.name)
    ensures Next(admin, s, op, luck).0.users == s.users
  {
  }

  /** With any sequence of calls and any failures, an admin is left and the admin of the options stays one. */
  lemma {:induction false} AdminsSurvive(admin: string, s: State, calls: seq<Call>)
    requires Admins(s) != {}
    ensures Admins(Run(admin, s, calls)) != {}
    ensures IsAdmin(s, admin) ==> IsAdmin(Run(admin, s, calls), admin)
    decreases |calls|
  {
    if calls != [] {
      var op, luck := calls[0].op, calls[0].luck;
      var next := Next(admin, s, op, luck).0;
      var a :| a in Admins(s);
      OnlyUnprotectedFall(admin, s, op, luck, a);
      if IsAdmin(next, a) {
        assert a in Admins(next);
      } else {
        var b :| b in Admins(s) && b != a;
        OnlyUnprotectedFall(admin, s, op, luck, b);
        assert b in Admins(next);
      }
      if IsAdmin(s, admin) { OnlyUnprotectedFall(admin, s, op, luck, admin); }
      AdminsSurvive(admin, next, calls[1..]);
    }
  }

  // ---- Without failures nothing is ever left over ----

  /** An admin has no rules, and only an admin has a stash. */
  ghost predicate Clean(s: State) { forall name :: CleanAt(s, name) }

  ghost predicate CleanAt(s: State, name: string) {
    (Pending(s, name) != [] ==> IsAdmin(s, name)) && (IsAdmin(s, name) ==> forall t :: Key(name, t) !in s.acl)
    && (name !in s.users && name != "everyone" ==> forall t :: Key(name, t) !in s.acl)
    && (name == "everyone" ==> !IsAdmin(s, name))
  }

  lemma CleanStep(admin: string, s: State, op: Op, luck: Luck)
    requires Clean(s) && Smooth(luck)
    ensures Clean(Next(admin, s, op, luck).0)
  {
    var next := Next(admin, s, op, luck).0;
    forall name ensures CleanAt(next, name) {
      assert CleanAt(s, name);
      if op.name != name {
        OthersUntouched(admin, s, op, luck, name);
        assert forall t :: Untouched(s, next, Key(name, t)) && (Key(name, t) in next.acl ==> Key(name, t) in s.acl);
      } else {
        CleanNamed(admin, s, op, luck);
      }
    }
  }

  lemma CleanNamed(admin: string, s: State, op: Op, luck: Luck)
    requires CleanAt(s, op.name) && Smooth(luck)
    ensures CleanAt(Next(admin, s, op, luck).0, op.name)
  {
    if op.ChangeRole? { CleanRole(admin, s, op, luck); } else { CleanOther(admin, s, op, luck); }
  }

  lemma CleanRole(admin: string, s: State, op: Op, luck: Luck)
    requires op.ChangeRole? && CleanAt(s, op.name) && Smooth(luck)
    ensures CleanAt(Next(admin, s, op, luck).0, op.name)
  {
    CleanDemotion(s, op.name, luck);
    CleanPromotion(s, op.name, luck);
  }

  lemma CleanOther(admin: string, s: State, op: Op, luck: Luck)
    requires !op.ChangeRole? && CleanAt(s, op.name) && Smooth(luck)
    ensures CleanAt(Next(admin, s, op, luck).0, op.name)
  {
    assert FateAt(luck, 0) == Done && WriteAt(luck, 0) == Done;
  }

  lemma CleanPromotion(s: State, name: string, luck: Luck)
    requires Smooth(luck)
    ensures var end := Promote(s, name, luck).0; IsAdmin(end, name) && forall t :: Key(name, t) !in end.acl
  {
    PromoteCases(s, name, luck);
    DropTouches(Stashed(s, name, luck.listing), name, luck.listing, 0, luck);
    assert FateAt(luck, 0) == Done;
  }

  lemma CleanDemotion(s: State, name: string, luck: Luck)
    requires Smooth(luck)
    ensures var end := Demote(s, name, luck).0; Pending(end, name) == [] && name in end.users && end.users[name] == User
  {
    assert FateAt(luck, 0) == Done && WriteAt(luck, 0) == Done;
    DemoteCases(s, name, luck);
    RestoreFrame(Popped(s, name), name, Pending(s, name), 0, luck);
    RestoreEmpties(Popped(s, name), name, Pending(s, name), 0, luck);
  }

  lemma {:induction false} RestoreEmpties(s: State, name: string, pending: seq<Saved>, i: nat, luck: Luck)
    requires Smooth(luck) && i <= |pending| && name !in s.stash
    ensures Pending(Restore(s, name, pending, i, luck).0, name) == []
    decreases |pending| - i
  {
    if i < |pending| {
      assert Works(luck, i);
      RestoreEmpties(After(s, name, pending[i]), name, pending, i + 1, luck);
    }
  }

  /** In runs without failures admins have no rules and no other user has a stash, so the exception of RoleRoundTrip
      never arises. */
  lemma {:induction false} SmoothRunsStayClean(admin: string, s: State, calls: seq<Call>)
    requires Clean(s) && forall i :: 0 <= i < |calls| ==> Smooth(calls[i].luck)
    ensures Clean(Run(admin, s, calls))
    ensures forall name :: !IsAdmin(Run(admin, s, calls), name) ==> Pending(Run(admin, s, calls), name) == []
    decreases |calls|
  {
    if calls == [] {
      forall name ensures !IsAdmin(s, name) ==> Pending(s, name) == [] { assert CleanAt(s, name); }
    } else {
      CleanStep(admin, s, calls[0].op, calls[0].luck);
      SmoothRunsStayClean(admin, Next(admin, s, calls[0].op, calls[0].luck).0, calls[1..]);
    }
  }

  // ---- Every stash has one rule per topic ----

  /** The database lists the rules of the named user as they are, at each call of the run. */
  ghost predicate Listed(admin: string, s: State, calls: seq<Call>)
    decreases |calls|
  {
    calls != [] ==> Lists(calls[0].luck.listing, s, calls[0].op.name)
                    && Listed(admin, Next(admin, s, calls[0].op, calls[0].luck).0, calls[1..])
  }

  lemma PromotedOnce(s: State, name: string, luck: Luck)
    requires OncePerTopic(Pending(s, name)) && Lists(luck.listing, s, name)
    ensures OncePerTopic(Pending(Promote(s, name, luck).0, name))
  {
    PromoteCases(s, name, luck);
    SavedRowsAre(s, name, luck.listing);
    DropTouches(Stashed(s, name, luck.listing), name, luck.listing, 0, luck);
  }

  lemma DemotedOnce(s: State, name: string, luck: Luck)
    requires OncePerTopic(Pending(s, name))
    ensures OncePerTopic(Pending(Demote(s, name, luck).0, name))
  {
    DemoteCases(s, name, luck);
    RestoreSplits(Popped(s, name), name, Pending(s, name), 0, luck);
  }

  lemma OnceOverStep(admin: string, s: State, op: Op, luck: Luck, name: string)
    requires OncePerTopic(Pending(s, name)) && Lists(luck.listing, s, op.name)
    ensures OncePerTopic(Pending(Next(admin, s, op, luck).0, name))
  {
    if op.name != name {
      OthersUntouched(admin, s, op, luck, name);
    } else if op.ChangeRole? {
      PromotedOnce(s, name, luck);
      DemotedOnce(s, name, luck);
    } else {
      StashStays(admin, s, op, luck);
    }
  }

  lemma StashStays(admin: string, s: State, op: Op, luck: Luck)
    requires !op.ChangeRole?
    ensures var next := Next(admin, s, op, luck).0;
            Pending(next, op.name) == Pending(s, op.name) || Pending(next, op.name) == []
  {
  }

  lemma {:induction false} StashesStayOnce(admin: string, s: State, calls: seq<Call>, name: string)
    requires OncePerTopic(Pending(s, name)) && Listed(admin, s, calls)
    ensures OncePerTopic(Pending(Run(admin, s, calls), name))
    decreases |calls|
  {
    if calls != [] {
      OnceOverStep(admin, s, calls[0].op, calls[0].luck, name);
      StashesStayOnce(admin, Next(admin, s, calls[0].op, calls[0].luck).0, calls[1..], name);
    }
  }

  /** After any calls with any failures, from a state without a stash, a demotion conserves as stated. */
  lemma RunsConserve(admin: string, s: State, calls: seq<Call>, name: string, luck: Luck)
    requires Pending(s, name) == [] && Listed(admin, s, calls)
    requires IsAdmin(Run(admin, s, calls), name) && !IsProtected(admin, Run(admin, s, calls), name)
    ensures Conserves(admin, Run(admin, s, calls), name, luck)
  {
    StashesStayOnce(admin, s, calls, name);
    DemotionConserves(admin, Run(admin, s, calls), name, luck);
  }

  // ---- Lost rules ----

  /** A promotion drops rules without stashing them exactly when there are some, and the answer of the command or the
      write of the stash is what fails. */
  lemma LostPromotion(admin: string, s: State, name: string, luck: Luck)
    requires name in s.users && s.users[name] == User && name != "everyone"
    requires luck.supported && Lists(luck.listing, s, name)
    ensures var (end, r) := Next(admin, s, ChangeRole(name, Admin), luck);
            var rules := SavedRows(s, name, luck.listing);
            (exists t :: Key(name, t) in s.acl && Key(name, t) !in end.acl) && Pending(end, name) != rules <==>
              && luck.listing != [] && luck.backup && Pending(s, name) != rules
              && (FateAt(luck, 0) == Lost || (FateAt(luck, 0) == Done && WriteAt(luck, 0) == Rejected))
  {
    var end := Next(admin, s, ChangeRole(name, Admin), luck).0;
    if luck.listing != [] {
      assert end == Promote(s, name, luck).0;
      DropTouches(Stashed(s, name, luck.listing), name, luck.listing, 0, luck);
      assert Key(name, luck.listing[0].topic) in s.acl;
      assert SavedRows(s, name, luck.listing) != [];
      assert luck.backup && FateAt(luck, 0) != Rejected ==> Key(name, luck.listing[0].topic) !in end.acl;
    }
  }

  /** The failure at one input: one rule, and a command whose answer is lost. */
  lemma LostExample()
    ensures var s := State(map["ann" := User], map[], map[Key("ann", "a") := Rw], map[], map[], map[]);
            var end := Next("bob", s, ChangeRole("ann", Admin), Luck(true, true, [Lost], [], [Row("a", Rw)])).0;
            Key("ann", "a") in s.acl && Key("ann", "a") !in end.acl && Pending(end, "ann") == []
  {
    var s := State(map["ann" := User], map[], map[Key("ann", "a") := Rw], map[], map[], map[]);
    var luck := Luck(true, true, [Lost], [], [Row("a", Rw)]);
    assert Next("bob", s, ChangeRole("ann", Admin), luck) == Promote(s, "ann", luck);
  }
}
