/** The ntfy auth database, as its command line changes it, and the origin records kept beside it
    (ntfy/app/authdb.py, ntfy/app/ntfycli.py, ntfy/app/origins.py). */
module NtfyState {

  datatype Role = User | Admin | Anonymous

  datatype Perm = Rw | Ro | Wo | Deny | OtherPerm

  datatype Origin = Gui | Options | Iac

  datatype Key = Key(user: string, topic: string)

  datatype Saved = Saved(topic: string, perm: Perm, origin: Origin)

  /** Users with passwords and rules are the database; origins and stash are the sidecar. */
  datatype State = State(
    users: map<string, Role>,
    passwords: map<string, string>,
    acl: map<Key, Perm>,
    userOrigins: map<string, Origin>,
    aclOrigins: map<Key, Origin>,
    stash: map<string, seq<Saved>>)

  /** What becomes of one command: it works, it is refused, or it works and its answer is lost. */
  datatype Fate = Done | Rejected | Lost

  /** A record that is missing counts as `gui`. */
  function GetAcl(s: State, k: Key): Origin { if k in s.aclOrigins then s.aclOrigins[k] else Gui }

  function Without<T>(m: map<Key, T>, user: string): map<Key, T> { map k | k in m && k.user != user :: m[k] }

  function AddUser(s: State, name: string, password: string, role: Role): State {
    s.(users := s.users[name := role], passwords := s.passwords[name := password])
  }

  /** Deleting a user removes its rules from the database. */
  function DeleteUser(s: State, name: string): State {
    s.(users := s.users - {name}, passwords := s.passwords - {name}, acl := Without(s.acl, name))
  }

  /** Making a user admin removes its rules from the database. */
  function SetRole(s: State, name: string, role: Role): State {
    s.(users := s.users[name := role], acl := if role == Admin then Without(s.acl, name) else s.acl)
  }

  function SetAccess(s: State, k: Key, p: Perm): State { s.(acl := s.acl[k := p]) }

  function ResetAccess(s: State, k: Key): State { s.(acl := s.acl - {k}) }

  function SetOrigin(s: State, k: Key, o: Origin): State { s.(aclOrigins := s.aclOrigins[k := o]) }

  /** `drop_user` takes the records of the rules and the stash along. */
  function DropUser(s: State, name: string): State {
    s.(userOrigins := s.userOrigins - {name}, aclOrigins := Without(s.aclOrigins, name), stash := s.stash - {name})
  }

  /** The state after one command with its fate. */
  function Fated(fate: Fate, before: State, after: State): State { if fate == Rejected then before else after }
}
