/** When a call on users and rules goes through, and what it then changes, field by field (ntfy/app/accounts.py). */
module NtfyCalls {
  import opened Strings
  import opened NtfyState
  import opened NtfyAccounts
  import opened NtfyRoles

  // ---- What is accepted ----

  predicate WordChar(c: char) { 'a' <= c <= 'z' || 'A' <= c <= 'Z' || '0' <= c <= '9' || c == '_' }

  /** A letter, digit or underscore, and up to 63 of these or `-`, `.`, `+`, `@`; a line break may follow. */
  ghost predicate GoodName(s: string) {
    s != "everyone" && s != "*" && exists core :: (s == core || s == core + "\n") && IsName(core)
  }

  predicate IsName(core: string) {
    && 1 <= |core| <= 64 && WordChar(core[0])
    && forall i :: 0 < i < |core| ==> WordChar(core[i]) || core[i] in {'-', '.', '+', '@'}
  }

  ghost predicate GoodTopic(s: string) { exists core :: (s == core || s == core + "\n") && IsTopic(core) }

  predicate IsTopic(core: string) {
    && 1 <= |core| <= 64 && (WordChar(core[0]) || core[0] == '*')
    && forall i :: 0 < i < |core| ==> WordChar(core[i]) || core[i] in {'-', '*'}
  }

  /** The user is the anonymous one, the one of the options, or an admin beside whom there is none. */
  predicate Untouchable(admin: string, s: State, name: string) {
    || name == "everyone" || name == admin
    || (name in s.users && s.users[name] == Admin && forall n :: n in s.users && n != name ==> s.users[n] != Admin)
  }

  lemma TrimmedIs(s: string, core: string)
    requires (s == core || s == core + "\n") && core != "" && core[|core| - 1] != '\n'
    ensures Trimmed(s) == core
  {
    if s == core + "\n" { assert s[..|s| - 1] == core; }
  }

  lemma NamesAre(s: string)
    ensures NewName(s) <==> GoodName(s)
  {
    var t := Trimmed(s);
    assert s == t || s == t + "\n";
    assert NameShape(t) <==> IsName(t);
    if GoodName(s) {
      var core :| (s == core || s == core + "\n") && IsName(core);
      TrimmedIs(s, core);
    }
  }

  lemma TopicsAre(s: string)
    ensures TopicOk(s) <==> GoodTopic(s)
  {
    var t := Trimmed(s);
    assert s == t || s == t + "\n";
    assert TopicShape(t) <==> IsTopic(t);
    if GoodTopic(s) {
      var core :| (s == core || s == core + "\n") && IsTopic(core);
      TrimmedIs(s, core);
    }
  }

  lemma ProtectedAre(admin: string, s: State, name: string)
    ensures IsProtected(admin, s, name) <==> Untouchable(admin, s, name)
  {
    if Admins(s) == {name} {
      assert name in Admins(s);
      forall n | n in s.users && n != name ensures s.users[n] != Admin { assert n !in Admins(s); }
    }
    if name in s.users && s.users[name] == Admin && forall n :: n in s.users && n != name ==> s.users[n] != Admin {
      assert name in Admins(s);
    }
  }

  /** The command takes effect, and so does the write of the sidecar behind it. */
  predicate Ran(luck: Luck) { FateAt(luck, 0) != Rejected }

  predicate Recorded(luck: Luck) { FateAt(luck, 0) == Done && WriteAt(luck, 0) != Rejected }

  predicate Answered(luck: Luck) { FateAt(luck, 0) == Done && WriteAt(luck, 0) == Done }

  /** The records that are not those of the user. */
  ghost predicate Rest<T>(before: map<Key, T>, after: map<Key, T>, name: string) {
    forall k :: (k in after <==> k in before && k.user != name) && (k in after ==> after[k] == before[k])
  }

  // ---- The calls ----

  /** A user is created exactly when the schema is supported, name, role and password are acceptable and the name is
      new; it then has this role and password and belongs to the gui. */
  lemma CreateMeans(admin: string, s: State, name: string, password: string, role: Role, luck: Luck)
    ensures var (end, r) := Next(admin, s, Create(name, password, role), luck);
            var valid := GoodName(name) && (role == User || role == Admin) && password != "" && Bytes(password) <= 72;
            var goes := luck.supported && valid && name !in s.users;
            && end == (if !goes || !Ran(luck) then s
                       else s.(users := s.users[name := role], passwords := s.passwords[name := password],
                               userOrigins := if Recorded(luck) then s.userOrigins[name := Gui] else s.userOrigins))
            && r == if !luck.supported then Err(Unsupported) else if !valid then Err(BadRequest)
                    else if name in s.users then Err(Conflict)
                    else if Answered(luck) then Ok(0)
                    else if FateAt(luck, 0) != Done then Err(CliFailed) else Err(SidecarFailed)
  {
    NamesAre(name);
  }

  /** A user is deleted exactly when it exists, is not protected, the name is typed again and a backup was made; its
      rules, records and stash go with it. */
  lemma DeleteMeans(admin: string, s: State, name: string, confirm: string, luck: Luck)
    ensures var (end, r) := Next(admin, s, Delete(name, confirm), luck);
            var goes := luck.supported && name in s.users && !Untouchable(admin, s, name)
                        && confirm == name && luck.backup;
            && (!goes || !Ran(luck) ==> end == s)
            && (goes && Ran(luck) ==>
                  end.users == s.users - {name} && end.passwords == s.passwords - {name} && Rest(s.acl, end.acl, name))
            && (goes && Recorded(luck) ==> end.userOrigins == s.userOrigins - {name} && end.stash == s.stash - {name} &&
                                           Rest(s.aclOrigins, end.aclOrigins, name))
            && (!goes || !Recorded(luck) ==>
                  end.userOrigins == s.userOrigins && end.stash == s.stash && end.aclOrigins == s.aclOrigins)
            && (r.Ok? <==> goes && Answered(luck))
            && (luck.supported && name in s.users && name != "everyone" && Untouchable(admin, s, name) ==>
                  r == Err(Protected))
  {
    ProtectedAre(admin, s, name);
    DeleteGoes(admin, s, name, confirm, luck);
    DeletedFields(s, name);
  }

  lemma DeleteGoes(admin: string, s: State, name: string, confirm: string, luck: Luck)
    ensures var (end, r) := Next(admin, s, Delete(name, confirm), luck); var after := DeleteUser(s, name);
            if !luck.supported || name !in s.users || IsProtected(admin, s, name) || confirm != name || !luck.backup
            then end == s && r.Err?
            else end == (if FateAt(luck, 0) == Rejected then s
                         else if FateAt(luck, 0) == Lost || WriteAt(luck, 0) == Rejected then after
                         else DropUser(after, name))
                 && (r.Ok? <==> Answered(luck))
    ensures luck.supported && name in s.users && name != "everyone" && IsProtected(admin, s, name) ==>
              Next(admin, s, Delete(name, confirm), luck).1 == Err(Protected)
  {
  }

  lemma DeletedFields(s: State, name: string)
    ensures var after := DeleteUser(s, name); var dropped := DropUser(after, name);
            && after == s.(users := s.users - {name}, passwords := s.passwords - {name}, acl := after.acl)
            && Rest(s.acl, after.acl, name)
            && dropped == after.(userOrigins := s.userOrigins - {name}, stash := s.stash - {name},
                                 aclOrigins := dropped.aclOrigins)
            && Rest(s.aclOrigins, dropped.aclOrigins, name)
  {
  }

  /** A rule is set exactly when permission and topic are acceptable and the user is the anonymous one or exists and is
      no admin; it then belongs to the gui, or stays with `iac`. */
  lemma SetRuleMeans(admin: string, s: State, name: string, topic: string, perm: Perm, luck: Luck)
    ensures var (end, r) := Next(admin, s, SetRule(name, topic, perm), luck); var k := Key(name, topic);
            var goes := luck.supported && perm != OtherPerm && GoodTopic(topic)
                        && (name == "everyone" || (name in s.users && s.users[name] != Admin));
            var owner := if k in s.acl && k in s.aclOrigins && s.aclOrigins[k] == Iac then Iac else Gui;
            && end == (if !goes || !Ran(luck) then s
                       else s.(acl := s.acl[k := perm],
                               aclOrigins := if Recorded(luck) then s.aclOrigins[k := owner] else s.aclOrigins))
            && (r.Ok? <==> goes && Answered(luck))
  {
    TopicsAre(topic);
  }

  /** A rule is removed exactly when it is there, with its record. */
  lemma RemoveRuleMeans(admin: string, s: State, name: string, topic: string, luck: Luck)
    ensures var (end, r) := Next(admin, s, RemoveRule(name, topic), luck); var k := Key(name, topic);
            var goes := luck.supported && GoodTopic(topic) && k in s.acl;
            && end == (if !goes || !Ran(luck) then s
                       else s.(acl := s.acl - {k},
                               aclOrigins := if Recorded(luck) then s.aclOrigins - {k} else s.aclOrigins))
            && (r.Ok? <==> goes && Answered(luck))
  {
    TopicsAre(topic);
  }

  /** A role changes exactly when the user exists, has the other role, is not protected if it is to fall, a backup was
      made if it is to rise and has rules, and the command takes effect. */
  lemma RoleMeans(admin: string, s: State, name: string, role: Role, luck: Luck)
    ensures var (end, r) := Next(admin, s, ChangeRole(name, role), luck);
            var known := luck.supported && (role == User || role == Admin) && name != "everyone" && name in s.users;
            var goes := known && s.users[name] != role && (role == User ==> !Untouchable(admin, s, name))
                        && (role == Admin && luck.listing != [] ==> luck.backup);
            && end.users == (if goes && Ran(luck) then s.users[name := role] else s.users)
            && end.passwords == s.passwords && end.userOrigins == s.userOrigins
            && (known && s.users[name] == role ==> (end, r) == (s, Ok(0)))
            && (known && s.users[name] != role && role == User && Untouchable(admin, s, name) ==>
                  (end, r) == (s, Err(Protected)))
            && (!goes ==> end == s)
  {
    ProtectedAre(admin, s, name);
    if role == Admin { PromoteFields(s, name, luck); } else { DemoteFields(s, name, luck); }
  }

  lemma PromoteFields(s: State, name: string, luck: Luck)
    ensures var end := Promote(s, name, luck).0;
            && end.passwords == s.passwords && end.userOrigins == s.userOrigins
            && end.users ==
                 (if (luck.listing != [] ==> luck.backup) && Ran(luck) then s.users[name := Admin] else s.users)
            && (luck.listing != [] && !luck.backup ==> end == s)
  {
    if luck.listing != [] { DropTouches(Stashed(s, name, luck.listing), name, luck.listing, 0, luck); }
  }

  lemma DemoteFields(s: State, name: string, luck: Luck)
    ensures var end := Demote(s, name, luck).0;
            && end.passwords == s.passwords && end.userOrigins == s.userOrigins
            && end.users == if Ran(luck) then s.users[name := User] else s.users
  {
    DemoteCases(s, name, luck);
    RestoreFields(Popped(s, name), name, Pending(s, name), 0, luck);
  }

  lemma {:induction false} RestoreFields(s: State, name: string, pending: seq<Saved>, i: nat, luck: Luck)
    requires i <= |pending|
    ensures var end := Restore(s, name, pending, i, luck).0;
            end.users == s.users && end.passwords == s.passwords && end.userOrigins == s.userOrigins
    decreases |pending| - i
  {
    if i < |pending| && Works(luck, i) { RestoreFields(After(s, name, pending[i]), name, pending, i + 1, luck); }
  }

  /** A promotion without failures takes all rules of the user into the stash, with their owners, and says how many. */
  lemma PromotionMeans(admin: string, s: State, name: string, luck: Luck, topic: string)
    requires name in s.users && s.users[name] == User && name != "everyone" && Smooth(luck)
    requires Lists(luck.listing, s, name) && luck.listing != []
    ensures var (end, r) := Next(admin, s, ChangeRole(name, Admin), luck); var k := Key(name, topic);
            && r == Ok(|luck.listing|) && name in end.stash && |end.stash[name]| == |luck.listing| && k !in end.acl
            && (k in s.acl ==> k !in end.aclOrigins)
            && (k in s.acl ==>
                  Saved(topic, s.acl[k], if k in s.aclOrigins then s.aclOrigins[k] else Gui) in end.stash[name])
            && (k !in s.acl ==> forall x :: x in end.stash[name] ==> x.topic != topic)
  {
    assert FateAt(luck, 0) == Done && WriteAt(luck, 0) == Done;
    var rows, stashed := luck.listing, Stashed(s, name, luck.listing);
    DropTouches(stashed, name, rows, 0, luck);
    DropsAll(stashed, name, rows, 0, luck);
    var (end, r) := Next(admin, s, ChangeRole(name, Admin), luck);
    assert (end, r) == DropRows(stashed, name, rows, 0, luck);
    var saved := SavedRows(s, name, rows);
    if Key(name, topic) in s.acl {
      var i :| 0 <= i < |rows| && rows[i].topic == topic;
      assert saved[i] in saved;
    }
  }

  lemma {:induction false} DropsAll(s: State, name: string, rows: seq<Row>, i: nat, luck: Luck)
    requires Smooth(luck) && i <= |rows|
    ensures DropRows(s, name, rows, i, luck).1 == Ok(|rows|)
    ensures forall k :: k in DropRows(s, name, rows, i, luck).0.aclOrigins ==> k in s.aclOrigins
    ensures forall j :: i <= j < |rows| ==> Key(name, rows[j].topic) !in DropRows(s, name, rows, i, luck).0.aclOrigins
    decreases |rows| - i
  {
    if i < |rows| {
      assert WriteAt(luck, i + 1) == Done;
      DropsAll(DropRow(s, name, rows[i]), name, rows, i + 1, luck);
    }
  }
}
