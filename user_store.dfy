/** The credential table of the auth service:
    `users (id SERIAL PRIMARY KEY, username VARCHAR(50) UNIQUE NOT NULL,
    password VARCHAR(512) NOT NULL)`, modelled as a map from username to
    (id, password) with the `SERIAL` sequence beside it. */
module Users {
  import opened Common

  const MAX_USERNAME_LENGTH := 50
  const MAX_PASSWORD_LENGTH := 512

  /** `models.User`. */
  datatype User = User(id: int, username: string, password: string)

  /** The rest of a row, keyed by its unique username. */
  datatype Account = Account(id: int, password: string)

  /** The errors the store reports: "value too long for type character
      varying(n)", the unique violation on `username`, "no rows in result
      set" and "no rows affected". */
  datatype UserError =
    | ValueTooLong(column: string)
    | UniqueViolation
    | NoRows
    | NoRowsAffected

  /** The assignment cast of a value to `VARCHAR(n)`. A value of at most `n`
      characters is kept; a longer one is cut to its first `n` characters when
      every character past the limit is a space, and refused otherwise. */
  function FitVarchar(s: string, n: nat): (r: Option<string>)
    ensures r.Some? <==> |s| <= n || forall i :: n <= i < |s| ==> s[i] == ' '
    ensures |s| <= n ==> r == Some(s)
    ensures r.Some? ==>
      && |r.value| <= n && r.value <= s
      && (|s| > n ==> |r.value| == n)
      && forall i :: |r.value| <= i < |s| ==> s[i] == ' '
  {
    if |s| <= n then Some(s)
    else if forall i :: n <= i < |s| ==> s[i] == ' ' then Some(s[..n])
    else None
  }

  datatype UserTable = UserTable(accounts: map<string, Account>, nextId: nat)
  {
    /** Ids are drawn from the sequence and are distinct (the primary key);
        every stored value fits its column. */
    ghost predicate Valid() {
      && 1 <= nextId
      && (forall u :: u in accounts ==> 1 <= accounts[u].id < nextId)
      && (forall u, v :: u in accounts && v in accounts && u != v ==> accounts[u].id != accounts[v].id)
      && (forall u :: u in accounts ==> |u| <= MAX_USERNAME_LENGTH && |accounts[u].password| <= MAX_PASSWORD_LENGTH)
    }

    /** `Insert`: `INSERT INTO users (username, password) ... RETURNING id`.
        Each value is cast to its column (`FitVarchar`) while the statement
        is planned, before the sequence is drawn, so a refused value draws no
        id. The unique index then checks the username as cast, after the
        sequence value has been drawn, and a refused duplicate leaves that
        value used. */
    function Insert(user: User): (UserTable, Result<int, UserError>) {
      match (FitVarchar(user.username, MAX_USERNAME_LENGTH), FitVarchar(user.password, MAX_PASSWORD_LENGTH))
      case (None, _) => (this, Err(ValueTooLong("50")))
      case (_, None) => (this, Err(ValueTooLong("512")))
      case (Some(name), Some(password)) =>
        if name in accounts then (this.(nextId := nextId + 1), Err(UniqueViolation))
        else (UserTable(accounts[name := Account(nextId, password)], nextId + 1), Ok(nextId))
    }

    /** `Get`: id and password of the user; the username is the one asked for. */
    function Get(name: string): Result<User, UserError> {
      if name in accounts then Ok(User(accounts[name].id, name, accounts[name].password)) else Err(NoRows)
    }

    /** `Delete`: `DELETE FROM users WHERE username = name`. */
    function Delete(name: string): (UserTable, Option<UserError>) {
      if name in accounts then (this.(accounts := accounts - {name}), None) else (this, Some(NoRowsAffected))
    }
  }

  function EmptyTable(): UserTable {
    UserTable(map[], 1)
  }

  /** Insert succeeds iff both values can be cast to their columns and the
      username, as cast, is new; the new row stores the cast values under a
      fresh id and Get of the cast username returns exactly them. A value
      that already fits is stored as given. On failure no row changes. */
  lemma InsertEffect(t: UserTable, user: User)
    requires t.Valid()
    ensures var (after, r) := t.Insert(user);
      var name := FitVarchar(user.username, MAX_USERNAME_LENGTH);
      var password := FitVarchar(user.password, MAX_PASSWORD_LENGTH);
      && after.Valid()
      && (r.Ok? <==> name.Some? && password.Some? && name.value !in t.accounts)
      && (r.Err? ==> after.accounts == t.accounts)
      && (name.None? ==> r == Err(ValueTooLong("50")) && after == t)
      && (name.Some? && password.Some? && name.value in t.accounts ==> r == Err(UniqueViolation))
      && (r.Ok? ==>
           && (forall u :: u in t.accounts ==> t.accounts[u].id != r.value)
           && after.accounts == t.accounts[name.value := Account(r.value, password.value)]
           && after.Get(name.value) == Ok(User(r.value, name.value, password.value)))
      && (|user.username| <= MAX_USERNAME_LENGTH && |user.password| <= MAX_PASSWORD_LENGTH ==>
           name == Some(user.username) && password == Some(user.password))
  {
  }

  /** A username padded with spaces past 50 characters is stored cut to 50
      characters when no stored username starts with it, and the same name
      with a letter past the limit is refused. */
  lemma PaddedUsernameTruncated(t: UserTable, name: string, password: string, pad: nat)
    requires t.Valid() && |name| <= MAX_USERNAME_LENGTH && |password| <= MAX_PASSWORD_LENGTH
    requires |name| + pad > MAX_USERNAME_LENGTH
    requires forall u :: u in t.accounts ==> !(name <= u)
    ensures var padded := name + seq(pad, _ => ' ');
      var stored := padded[..MAX_USERNAME_LENGTH];
      && t.Insert(User(0, padded, password)).1 == Ok(t.nextId)
      && t.Insert(User(0, padded, password)).0.Get(stored) == Ok(User(t.nextId, stored, password))
      && t.Insert(User(0, padded + "x", password)) == (t, Err(ValueTooLong("50")))
  {
    var padded := name + seq(pad, _ => ' ');
    var stored := padded[..MAX_USERNAME_LENGTH];
    assert forall i :: MAX_USERNAME_LENGTH <= i < |padded| ==> padded[i] == ' ';
    assert name <= stored;
    assert stored !in t.accounts;
    assert (padded + "x")[|padded|] != ' ';
  }

  /** The first user of an empty table gets id 1; the same username a second
      time is refused. */
  lemma FirstUserThenDuplicate(first: User, second: User)
    requires |first.username| <= 50 && |first.password| <= 512
    requires second.username == first.username && |second.password| <= 512
    ensures EmptyTable().Insert(first).1 == Ok(1)
    ensures EmptyTable().Insert(first).0.Insert(second).1 == Err(UniqueViolation)
  {
  }

  /** Get finds exactly the stored users, under the name asked for. */
  lemma GetEffect(t: UserTable, name: string)
    ensures t.Get(name).Ok? <==> name in t.accounts
    ensures t.Get(name).Ok? ==>
      t.Get(name).value.username == name && t.Get(name).value.password == t.accounts[name].password
  {
  }

  /** Delete removes that user and no other; an unknown name reports "no rows
      affected" and changes nothing. */
  lemma DeleteEffect(t: UserTable, name: string)
    requires t.Valid()
    ensures var (after, err) := t.Delete(name);
      && after.Valid()
      && (err.None? <==> name in t.accounts)
      && (err.Some? ==> err == Some(NoRowsAffected) && after == t)
      && (err.None? ==> after.accounts == t.accounts - {name} && after.nextId == t.nextId && after.Get(name).Err?)
  {
  }

  /** The store object: the `users` table and its sequence. */
  class UserStore {
    var accounts: map<string, Account>
    var nextId: nat

    function State(): UserTable
      reads this
    {
      UserTable(accounts, nextId)
    }

    ghost predicate Valid()
      reads this
    {
      State().Valid()
    }

    constructor ()
      ensures Valid() && State() == EmptyTable()
    {
      accounts, nextId := map[], 1;
    }

    /** Returns the new id, or 0 and the error. */
    method Insert(user: User) returns (id: int, err: Option<UserError>)
      requires Valid()
      modifies this
      ensures Valid()
      ensures State() == old(State()).Insert(user).0
      ensures old(State()).Insert(user).1 == if err.None? then Ok(id) else Err(err.value)
      ensures err.Some? ==> id == 0
    {
      InsertEffect(State(), user);
      var name := FitVarchar(user.username, MAX_USERNAME_LENGTH);
      if name.None? {
        return 0, Some(ValueTooLong("50"));
      }
      var password := FitVarchar(user.password, MAX_PASSWORD_LENGTH);
      if password.None? {
        return 0, Some(ValueTooLong("512"));
      }
      var drawn := nextId;
      nextId := nextId + 1;
      if name.value in accounts {
        return 0, Some(UniqueViolation);
      }
      accounts := accounts[name.value := Account(drawn, password.value)];
      id, err := drawn, None;
    }

    method Get(name: string) returns (r: Result<User, UserError>)
      ensures r.Ok? <==> name in accounts
      ensures r.Ok? ==> r.value == User(accounts[name].id, name, accounts[name].password)
      ensures r.Err? ==> r.error == NoRows
    {
      if name in accounts {
        r := Ok(User(accounts[name].id, name, accounts[name].password));
      } else {
        r := Err(NoRows);
      }
    }

    /** `SELECT id, username FROM users`, without ORDER BY: every user once,
        in no particular order, with the password left empty. */
    method GetAll() returns (list: seq<User>)
      ensures |list| == |accounts.Keys|
      ensures forall i :: 0 <= i < |list| ==>
        && list[i].username in accounts
        && list[i].id == accounts[list[i].username].id
        && list[i].password == ""
      ensures forall i, j :: 0 <= i < j < |list| ==> list[i].username != list[j].username
      ensures (set i | 0 <= i < |list| :: list[i].username) == accounts.Keys
    {
      list := [];
      var remaining := accounts.Keys;
      while remaining != {}
        invariant remaining <= accounts.Keys
        invariant |list| + |remaining| == |accounts.Keys|
        invariant forall i :: 0 <= i < |list| ==>
          && list[i].username in accounts && list[i].username !in remaining
          && list[i].id == accounts[list[i].username].id
          && list[i].password == ""
        invariant forall i, j :: 0 <= i < j < |list| ==> list[i].username != list[j].username
        invariant (set i | 0 <= i < |list| :: list[i].username) == accounts.Keys - remaining
        decreases remaining
      {
        var name :| name in remaining;
        ghost var prev, before := list, remaining;
        list := list + [User(accounts[name].id, name, "")];
        remaining := remaining - {name};
        forall u | u in accounts.Keys - remaining
          ensures u in set i | 0 <= i < |list| :: list[i].username
        {
          if u == name {
            assert list[|list| - 1].username == u;
          } else {
            assert u in accounts.Keys - before;
            assert u in set i | 0 <= i < |prev| :: prev[i].username;
            var k :| 0 <= k < |prev| && prev[k].username == u;
            assert list[k].username == u;
          }
        }
      }
    }

    method Delete(name: string) returns (err: Option<UserError>)
      requires Valid()
      modifies this
      ensures Valid()
      ensures (State(), err) == old(State()).Delete(name)
    {
      DeleteEffect(State(), name);
      if name !in accounts {
        return Some(NoRowsAffected);
      }
      accounts := accounts - {name};
      err := None;
    }

    /** `Update` is a stub: it always succeeds and changes nothing. */
    method Update(id: int, user: User) returns (err: Option<UserError>)
      ensures err == None
    {
      err := None;
    }
  }
}
