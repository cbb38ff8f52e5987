/** The user store: entries are only ever added, and one slot is shared by all anonymous names. */
module Users {
  import opened Wrappers
  import opened Permissions

  datatype FtpUser = FtpUser(password: string, localRootPath: string, permissions: Permission)

  datatype UserTable = UserTable(named: map<string, FtpUser>, anonymous: Option<FtpUser>)

  predicate IsAnonymousName(name: string) {
    name == "" || name == "ftp" || name == "anonymous"
  }

  /** The entry a name denotes, whatever the password. */
  function Entry(table: UserTable, name: string): Option<FtpUser> {
    if IsAnonymousName(name) then table.anonymous
    else if name in table.named then Some(table.named[name])
    else None
  }

  function Lookup(table: UserTable, name: string, password: string): Option<FtpUser> {
    match Entry(table, name)
    case None => None
    case Some(user) => if IsAnonymousName(name) || user.password == password then Some(user) else None
  }

  function Added(table: UserTable, name: string, user: FtpUser): UserTable {
    if Entry(table, name).Some? then table
    else if IsAnonymousName(name) then table.(anonymous := Some(user))
    else table.(named := table.named[name := user])
  }

  class UserDatabase {
    var database: map<string, FtpUser>
    var anonymousUser: Option<FtpUser>

    ghost function Table(): UserTable
      reads this
    {
      UserTable(database, anonymousUser)
    }

    constructor ()
      ensures Table() == UserTable(map[], None)
    {
      database, anonymousUser := map[], None;
    }

    method AddUser(username: string, password: string, localRootPath: string, permissions: Permission)
      returns (added: bool)
      modifies this
      ensures added <==> Entry(old(Table()), username).None?
      ensures Table() == Added(old(Table()), username, FtpUser(password, localRootPath, permissions))
    {
      if IsAnonymousName(username) {
        if anonymousUser.Some? {
          return false;
        }
        anonymousUser := Some(FtpUser(password, localRootPath, permissions));
        return true;
      } else if username !in database {
        database := database[username := FtpUser(password, localRootPath, permissions)];
        return true;
      } else {
        return false;
      }
    }

    method GetUser(username: string, password: string) returns (user: Option<FtpUser>)
      ensures user == Lookup(Table(), username, password)
    {
      if IsAnonymousName(username) {
        return anonymousUser;
      }
      if username !in database {
        return None;
      }
      if database[username].password == password {
        return Some(database[username]);
      }
      return None;
    }
  }

  // ---------------------------------------------------------------- whole histories of additions

  datatype Addition = Addition(name: string, user: FtpUser)

  function AddAll(table: UserTable, additions: seq<Addition>): UserTable
    decreases |additions|
  {
    if additions == [] then table
    else AddAll(Added(table, additions[0].name, additions[0].user), additions[1..])
  }

  /** Names that denote the same slot. */
  predicate SameSlot(a: string, b: string) {
    a == b || (IsAnonymousName(a) && IsAnonymousName(b))
  }

  /** After any additions a name denotes what it denoted before, or else the first addition to its slot. */
  lemma {:induction false} EntryAfter(table: UserTable, additions: seq<Addition>, name: string)
    ensures Entry(table, name).Some? ==> Entry(AddAll(table, additions), name) == Entry(table, name)
    ensures Entry(table, name).None? ==>
              match Entry(AddAll(table, additions), name)
              case None => forall i | 0 <= i < |additions| :: !SameSlot(additions[i].name, name)
              case Some(user) =>
                exists i | 0 <= i < |additions| ::
                  && SameSlot(additions[i].name, name) && additions[i].user == user
                  && forall j | 0 <= j < i :: !SameSlot(additions[j].name, name)
    decreases |additions|
  {
    if additions != [] {
      var next := Added(table, additions[0].name, additions[0].user);
      EntryAfter(next, additions[1..], name);
      if Entry(table, name).None? && !SameSlot(additions[0].name, name) && Entry(AddAll(table, additions), name).Some? {
        var i :| 0 <= i < |additions[1..]| && SameSlot(additions[1..][i].name, name)
                 && additions[1..][i].user == Entry(AddAll(table, additions), name).value
                 && forall j | 0 <= j < i :: !SameSlot(additions[1..][j].name, name);
        assert SameSlot(additions[i + 1].name, name);
        assert forall j | 0 < j < i + 1 :: additions[j] == additions[1..][j - 1];
      }
    }
  }

  /** A login that succeeded once succeeds for ever with the same user; one refused for a wrong password stays refused. */
  lemma LookupStable(table: UserTable, additions: seq<Addition>, name: string, password: string)
    ensures Entry(table, name).Some? ==>
              Lookup(AddAll(table, additions), name, password) == Lookup(table, name, password)
  {
    EntryAfter(table, additions, name);
  }

  // ---------------------------------------------------------------- in plain names

  /** The user of the first addition under one of the names. */
  function FirstNamed(additions: seq<Addition>, names: set<string>): Option<FtpUser> {
    if additions == [] then None
    else if additions[0].name in names then Some(additions[0].user)
    else FirstNamed(additions[1..], names)
  }

  lemma {:induction false} EntryIsFirst(table: UserTable, additions: seq<Addition>, name: string)
    ensures Entry(AddAll(table, additions), name) ==
            if Entry(table, name).Some? then Entry(table, name)
            else FirstNamed(additions, if name in {"", "ftp", "anonymous"} then {"", "ftp", "anonymous"} else {name})
    decreases |additions|
  {
    if additions != [] {
      EntryIsFirst(Added(table, additions[0].name, additions[0].user), additions[1..], name);
    }
  }

  /** After any additions to an empty table: a name and a password give the user first added under exactly that name,
      if and only if the password is that user's; "", "ftp" and "anonymous" give the user first added under any of the
      three, whatever the password. */
  lemma LookupIsFirst(additions: seq<Addition>, name: string, password: string)
    ensures var found := Lookup(AddAll(UserTable(map[], None), additions), name, password);
            if name in {"", "ftp", "anonymous"} then found == FirstNamed(additions, {"", "ftp", "anonymous"})
            else forall user :: found == Some(user) <==> FirstNamed(additions, {name}) == Some(user) && user.password == password
  {
    EntryIsFirst(UserTable(map[], None), additions, name);
  }

  lemma {:induction false} AddAllConcat(table: UserTable, a: seq<Addition>, b: seq<Addition>)
    ensures AddAll(table, a + b) == AddAll(AddAll(table, a), b)
    decreases |a|
  {
    if a == [] {
      assert a + b == b;
    } else {
      assert (a + b)[1..] == a[1..] + b;
      AddAllConcat(Added(table, a[0].name, a[0].user), a[1..], b);
    }
  }
}
