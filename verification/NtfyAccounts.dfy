/** User and rule services with their guards and the stash of rules over a role change (ntfy/app/accounts.py). */
module NtfyAccounts {
  import opened Strings
  import opened NtfyState

  datatype Row = Row(topic: string, perm: Perm)

  datatype Error = Unsupported | BadRequest | NotFound | Conflict | Protected | Unconfirmed | BackupFailed
    | CliFailed | SidecarFailed

  datatype Result = Ok(dropped: nat) | Err(error: Error)

  datatype Op =
    | Create(name: string, password: string, role: Role)
    | Delete(name: string, confirm: string)
    | ChangeRole(name: string, role: Role)
    | SetRule(name: string, topic: string, perm: Perm)
    | RemoveRule(name: string, topic: string)

  /** What the outside does during one call: the schema check, the backup, the fate of each command and of each write of
      the sidecar, and the order in which the database lists the rules of the user named. A write is rejected when its
      lock file cannot be opened, and lost when only saving the changed records fails. */
  datatype Luck = Luck(supported: bool, backup: bool, fates: seq<Fate>, writes: seq<Fate>, listing: seq<Row>)

  function FateAt(luck: Luck, i: nat): Fate { if i < |luck.fates| then luck.fates[i] else Done }

  function WriteAt(luck: Luck, i: nat): Fate { if i < |luck.writes| then luck.writes[i] else Done }

  // ---- Guards ----

  predicate Alnum(c: char) { 'a' <= c <= 'z' || 'A' <= c <= 'Z' || '0' <= c <= '9' || c == '_' }

  predicate NameShape(s: string) {
    1 <= |s| <= 64 && Alnum(s[0])
    && forall i :: 0 <= i < |s| ==> Alnum(s[i]) || s[i] == '-' || s[i] == '.' || s[i] == '+' || s[i] == '@'
  }

  predicate TopicShape(s: string) {
    1 <= |s| <= 64 && s[0] != '-' && forall i :: 0 <= i < |s| ==> Alnum(s[i]) || s[i] == '-' || s[i] == '*'
  }

  /** `$` also matches before a final line break. */
  function Trimmed(s: string): string { if s != "" && s[|s| - 1] == '\n' then s[..|s| - 1] else s }

  predicate NewName(s: string) { s != "everyone" && s != "*" && NameShape(Trimmed(s)) }

  predicate TopicOk(s: string) { TopicShape(Trimmed(s)) }

  predicate PasswordOk(s: string) { s != "" && Bytes(s) <= 72 }

  ghost function Admins(s: State): set<string> { set n | n in s.users && s.users[n] == Admin }

  /** The anonymous user, the admin of the options, and the only admin. */
  ghost predicate IsProtected(admin: string, s: State, name: string) {
    name == "everyone" || name == admin || Admins(s) == {name}
  }

  // ---- The services on states ----

  /** The last write of a call. */
  ghost function Noted(fate: Fate, before: State, after: State): (State, Result) {
    (Fated(fate, before, after), if fate == Done then Ok(0) else Err(SidecarFailed))
  }

  ghost function NextCreate(s: State, op: Op, luck: Luck): (State, Result)
    requires op.Create?
  {
    if !NewName(op.name) || op.role == Anonymous || !PasswordOk(op.password) then (s, Err(BadRequest))
    else if op.name in s.users then (s, Err(Conflict))
    else
      var after := AddUser(s, op.name, op.password, op.role);
      if FateAt(luck, 0) != Done then (Fated(FateAt(luck, 0), s, after), Err(CliFailed))
      else Noted(WriteAt(luck, 0), after, after.(userOrigins := after.userOrigins[op.name := Gui]))
  }

  ghost function NextDelete(admin: string, s: State, op: Op, luck: Luck): (State, Result)
    requires op.Delete?
  {
    if op.name == "everyone" then (s, Err(BadRequest))
    else if op.name !in s.users then (s, Err(NotFound))
    else if IsProtected(admin, s, op.name) then (s, Err(Protected))
    else if op.confirm != op.name then (s, Err(Unconfirmed))
    else if !luck.backup then (s, Err(BackupFailed))
    else
      var after := DeleteUser(s, op.name);
      if FateAt(luck, 0) != Done then (Fated(FateAt(luck, 0), s, after), Err(CliFailed))
      else Noted(WriteAt(luck, 0), after, DropUser(after, op.name))
  }

  ghost function NextRole(admin: string, s: State, op: Op, luck: Luck): (State, Result)
    requires op.ChangeRole?
  {
    if op.role == Anonymous || op.name == "everyone" then (s, Err(BadRequest))
    else if op.name !in s.users then (s, Err(NotFound))
    else if s.users[op.name] == op.role then (s, Ok(0))
    else if op.role == User && IsProtected(admin, s, op.name) then (s, Err(Protected))
    else if op.role == Admin then Promote(s, op.name, luck)
    else Demote(s, op.name, luck)
  }

  ghost function SavedRows(s: State, name: string, rows: seq<Row>): seq<Saved> {
    seq(|rows|, i requires 0 <= i < |rows| => Saved(rows[i].topic, rows[i].perm, GetAcl(s, Key(name, rows[i].topic))))
  }

  ghost function Promote(s: State, name: string, luck: Luck): (State, Result) {
    var rows := luck.listing;
    if rows != [] && !luck.backup then (s, Err(BackupFailed))
    else
      var after := SetRole(s, name, Admin);
      if FateAt(luck, 0) != Done then (Fated(FateAt(luck, 0), s, after), Err(CliFailed))
      else if rows == [] then (after, Ok(0))
      else
        var stashed := after.(stash := after.stash[name := SavedRows(s, name, rows)]);
        if WriteAt(luck, 0) != Done then (Fated(WriteAt(luck, 0), after, stashed), Err(SidecarFailed))
        else DropRows(stashed, name, rows, 0, luck)
  }

  ghost function DropRow(s: State, name: string, row: Row): State {
    s.(aclOrigins := s.aclOrigins - {Key(name, row.topic)})
  }

  /** The records of the stashed rules go one by one. */
  ghost function DropRows(s: State, name: string, rows: seq<Row>, i: nat, luck: Luck): (State, Result)
    requires i <= |rows|
    decreases |rows| - i
  {
    if i == |rows| then (s, Ok(|rows|))
    else if WriteAt(luck, i + 1) == Done then DropRows(DropRow(s, name, rows[i]), name, rows, i + 1, luck)
    else (Fated(WriteAt(luck, i + 1), s, DropRow(s, name, rows[i])), Err(SidecarFailed))
  }

  ghost function Pending(s: State, name: string): seq<Saved> { if name in s.stash then s.stash[name] else [] }

  ghost function Demote(s: State, name: string, luck: Luck): (State, Result) {
    var after := SetRole(s, name, User);
    if FateAt(luck, 0) != Done then (Fated(FateAt(luck, 0), s, after), Err(CliFailed))
    else
      var popped := after.(stash := after.stash - {name});
      if WriteAt(luck, 0) != Done then (Fated(WriteAt(luck, 0), after, popped), Err(SidecarFailed))
      else Restore(popped, name, Pending(s, name), 0, luck)
  }

  ghost predicate Works(luck: Luck, i: nat) { FateAt(luck, i + 1) == Done && WriteAt(luck, i + 1) == Done }

  ghost function Access(s: State, name: string, r: Saved): State { SetAccess(s, Key(name, r.topic), r.perm) }

  ghost function Record(s: State, name: string, r: Saved): State { SetOrigin(s, Key(name, r.topic), r.origin) }

  /** Rule by rule, each with its record. */
  ghost function Restore(s: State, name: string, pending: seq<Saved>, i: nat, luck: Luck): (State, Result)
    requires i <= |pending|
    decreases |pending| - i
  {
    if i == |pending| then (s, Ok(0))
    else if Works(luck, i)
    then Restore(Record(Access(s, name, pending[i]), name, pending[i]), name, pending, i + 1, luck)
    else Stop(s, name, pending, i, luck)
  }

  /** What is left at the first command that fails goes back to the stash; at the first record that fails it is not
      kept. */
  ghost function Stop(s: State, name: string, pending: seq<Saved>, i: nat, luck: Luck): (State, Result)
    requires i < |pending|
  {
    var after := Access(s, name, pending[i]);
    var fate, write := FateAt(luck, i + 1), WriteAt(luck, i + 1);
    if fate == Done then (Fated(write, after, Record(after, name, pending[i])), Err(SidecarFailed))
    else
      var tried := Fated(fate, s, after);
      (Fated(write, tried, tried.(stash := tried.stash[name := pending[i..]])),
       Err(if write == Done then CliFailed else SidecarFailed))
  }

  ghost function NextRule(s: State, op: Op, luck: Luck): (State, Result)
    requires op.SetRule?
  {
    var k := Key(op.name, op.topic);
    if op.perm == OtherPerm || !TopicOk(op.topic) then (s, Err(BadRequest))
    else if op.name != "everyone" && op.name !in s.users then (s, Err(NotFound))
    else if op.name != "everyone" && s.users[op.name] == Admin then (s, Err(BadRequest))
    else
      var after := SetAccess(s, k, op.perm);
      var origin := if k in s.acl && GetAcl(s, k) == Iac then Iac else Gui;
      if FateAt(luck, 0) != Done then (Fated(FateAt(luck, 0), s, after), Err(CliFailed))
      else Noted(WriteAt(luck, 0), after, SetOrigin(after, k, origin))
  }

  ghost function NextRemove(s: State, op: Op, luck: Luck): (State, Result)
    requires op.RemoveRule?
  {
    var k := Key(op.name, op.topic);
    if !TopicOk(op.topic) then (s, Err(BadRequest))
    else if k !in s.acl then (s, Err(NotFound))
    else
      var after := ResetAccess(s, k);
      if FateAt(luck, 0) != Done then (Fated(FateAt(luck, 0), s, after), Err(CliFailed))
      else Noted(WriteAt(luck, 0), after, after.(aclOrigins := after.aclOrigins - {k}))
  }

  ghost function Next(admin: string, s: State, op: Op, luck: Luck): (State, Result) {
    if !luck.supported then (s, Err(Unsupported))
    else match op
      case Create(_, _, _) => NextCreate(s, op, luck)
      case Delete(_, _) => NextDelete(admin, s, op, luck)
      case ChangeRole(_, _) => NextRole(admin, s, op, luck)
      case SetRule(_, _, _) => NextRule(s, op, luck)
      case RemoveRule(_, _) => NextRemove(s, op, luck)
  }

  // ---- The services as the program runs them ----

  /** The rows are exactly the rules of the user, each once. */
  ghost predicate Lists(rows: seq<Row>, s: State, name: string) {
    && (forall i :: 0 <= i < |rows| ==>
          Key(name, rows[i].topic) in s.acl && s.acl[Key(name, rows[i].topic)] == rows[i].perm)
    && (forall i, j :: 0 <= i < j < |rows| ==> rows[i].topic != rows[j].topic)
    && (forall k :: k in s.acl && k.user == name ==> exists i :: 0 <= i < |rows| && rows[i].topic == k.topic)
  }

  class Accounts {
    const admin: string
    var s: State

    constructor (admin: string, s: State)
      ensures this.admin == admin && this.s == s
    {
      this.admin, this.s := admin, s;
    }

    /** `_protection` for one user. */
    method Protection(name: string) returns (protected: bool)
      requires name in s.users
      ensures protected == IsProtected(admin, s, name)
    {
      if name == "everyone" || name == admin { return true; }
      var rows := s.users.Keys;
      var others := false;
      while rows != {}
        invariant rows <= s.users.Keys
        invariant others <==> exists n :: n in s.users.Keys - rows && n != name && s.users[n] == Admin
        decreases rows
      {
        var n :| n in rows;
        if n != name && s.users[n] == Admin { others := true; }
        rows := rows - {n};
      }
      protected := s.users[name] == Admin && !others;
      assert name in Admins(s) <==> s.users[name] == Admin;
      if others {
        var n :| n in s.users && n != name && s.users[n] == Admin;
        assert n in Admins(s);
      }
    }

    method ChangeRoleOf(name: string, role: Role, luck: Luck) returns (r: Result)
      requires Lists(luck.listing, s, name)
      modifies this`s
      ensures (s, r) == Next(admin, old(s), ChangeRole(name, role), luck)
    {
      if !luck.supported { return Err(Unsupported); }
      if role == Anonymous || name == "everyone" { return Err(BadRequest); }
      if name !in s.users { return Err(NotFound); }
      if s.users[name] == role { return Ok(0); }
      var protected := Protection(name);
      if role == User && protected { return Err(Protected); }
      if role == Admin {
        r := PromoteUser(name, luck);
      } else {
        r := DemoteUser(name, luck);
      }
    }

    method PromoteUser(name: string, luck: Luck) returns (r: Result)
      requires Lists(luck.listing, s, name)
      modifies this`s
      ensures (s, r) == Promote(old(s), name, luck)
    {
      var snapshot := luck.listing;
      if snapshot != [] && !luck.backup { return Err(BackupFailed); }
      s := Fated(FateAt(luck, 0), s, SetRole(s, name, Admin));
      if FateAt(luck, 0) != Done { return Err(CliFailed); }
      if snapshot != [] {
        ghost var all := SavedRows(old(s), name, snapshot);
        var saved: seq<Saved> := [];
        for i := 0 to |snapshot|
          invariant saved == all[..i]
        {
          assert all[..i + 1] == all[..i] + [all[i]];
          saved := saved + [Saved(snapshot[i].topic, snapshot[i].perm, GetAcl(s, Key(name, snapshot[i].topic)))];
        }
        assert saved == all;
        s := Fated(WriteAt(luck, 0), s, s.(stash := s.stash[name := saved]));
        if WriteAt(luck, 0) != Done { return Err(SidecarFailed); }
        for i := 0 to |snapshot|
          invariant Promote(old(s), name, luck) == DropRows(s, name, snapshot, i, luck)
        {
          s := Fated(WriteAt(luck, i + 1), s, s.(aclOrigins := s.aclOrigins - {Key(name, snapshot[i].topic)}));
          if WriteAt(luck, i + 1) != Done { return Err(SidecarFailed); }
        }
      }
      r := Ok(|snapshot|);
    }

    method DemoteUser(name: string, luck: Luck) returns (r: Result)
      modifies this`s
      ensures (s, r) == Demote(old(s), name, luck)
    {
      s := Fated(FateAt(luck, 0), s, SetRole(s, name, User));
      if FateAt(luck, 0) != Done { return Err(CliFailed); }
      var pending := if name in s.stash then s.stash[name] else [];
      s := Fated(WriteAt(luck, 0), s, s.(stash := s.stash - {name}));
      if WriteAt(luck, 0) != Done { return Err(SidecarFailed); }
      for i := 0 to |pending|
        invariant Demote(old(s), name, luck) == Restore(s, name, pending, i, luck)
      {
        var k := Key(name, pending[i].topic);
        var fate := FateAt(luck, i + 1);
        s := Fated(fate, s, SetAccess(s, k, pending[i].perm));
        var write := WriteAt(luck, i + 1);
        if fate != Done {
          s := Fated(write, s, s.(stash := s.stash[name := pending[i..]]));
          return Err(if write == Done then CliFailed else SidecarFailed);
        }
        s := Fated(write, s, SetOrigin(s, k, pending[i].origin));
        if write != Done { return Err(SidecarFailed); }
      }
      r := Ok(0);
    }

    method DeleteUserNamed(name: string, confirm: string, luck: Luck) returns (r: Result)
      modifies this`s
      ensures (s, r) == Next(admin, old(s), Delete(name, confirm), luck)
    {
      if !luck.supported { return Err(Unsupported); }
      if name == "everyone" { return Err(BadRequest); }
      if name !in s.users { return Err(NotFound); }
      var protected := Protection(name);
      if protected { return Err(Protected); }
      if confirm != name { return Err(Unconfirmed); }
      if !luck.backup { return Err(BackupFailed); }
      s := Fated(FateAt(luck, 0), s, DeleteUser(s, name));
      if FateAt(luck, 0) != Done { return Err(CliFailed); }
      s := Fated(WriteAt(luck, 0), s, DropUser(s, name));
      if WriteAt(luck, 0) != Done { return Err(SidecarFailed); }
      r := Ok(0);
    }

    method CreateUser(name: string, password: string, role: Role, luck: Luck) returns (r: Result)
      modifies this`s
      ensures (s, r) == Next(admin, old(s), Create(name, password, role), luck)
    {
      if !luck.supported { return Err(Unsupported); }
      if !NewName(name) || role == Anonymous || !PasswordOk(password) { return Err(BadRequest); }
      if name in s.users { return Err(Conflict); }
      s := Fated(FateAt(luck, 0), s, AddUser(s, name, password, role));
      if FateAt(luck, 0) != Done { return Err(CliFailed); }
      s := Fated(WriteAt(luck, 0), s, s.(userOrigins := s.userOrigins[name := Gui]));
      if WriteAt(luck, 0) != Done { return Err(SidecarFailed); }
      r := Ok(0);
    }

    method RemoveRuleOf(name: string, topic: string, luck: Luck) returns (r: Result)
      modifies this`s
      ensures (s, r) == Next(admin, old(s), RemoveRule(name, topic), luck)
    {
      if !luck.supported { return Err(Unsupported); }
      if !TopicOk(topic) { return Err(BadRequest); }
      var k := Key(name, topic);
      if k !in s.acl { return Err(NotFound); }
      s := Fated(FateAt(luck, 0), s, ResetAccess(s, k));
      if FateAt(luck, 0) != Done { return Err(CliFailed); }
      s := Fated(WriteAt(luck, 0), s, s.(aclOrigins := s.aclOrigins - {k}));
      if WriteAt(luck, 0) != Done { return Err(SidecarFailed); }
      r := Ok(0);
    }

    method SetRuleOf(name: string, topic: string, perm: Perm, luck: Luck) returns (r: Result)
      modifies this`s
      ensures (s, r) == Next(admin, old(s), SetRule(name, topic, perm), luck)
    {
      if !luck.supported { return Err(Unsupported); }
      if perm == OtherPerm || !TopicOk(topic) { return Err(BadRequest); }
      if name != "everyone" {
        if name !in s.users { return Err(NotFound); }
        if s.users[name] == Admin { return Err(BadRequest); }
      }
      var k := Key(name, topic);
      var origin := if k in s.acl && GetAcl(s, k) == Iac then Iac else Gui;
      s := Fated(FateAt(luck, 0), s, SetAccess(s, k, perm));
      if FateAt(luck, 0) != Done { return Err(CliFailed); }
      s := Fated(WriteAt(luck, 0), s, SetOrigin(s, k, origin));
      if WriteAt(luck, 0) != Done { return Err(SidecarFailed); }
      r := Ok(0);
    }
  }

  // ---- Runs ----

  datatype Call = Call(op: Op, luck: Luck)

  ghost function Run(admin: string, s: State, calls: seq<Call>): State
    decreases |calls|
  {
    if calls == [] then s else Run(admin, Next(admin, s, calls[0].op, calls[0].luck).0, calls[1..])
  }

  ghost predicate IsAdmin(s: State, name: string) { name in s.users && s.users[name] == Admin }
}
