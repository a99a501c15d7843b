/** The session of src/context/AuthContext.tsx: a fixed table of demo
    accounts, a login that looks up email and password in it, and a
    logout. The signed-in user is kept in storage under 'user'. */
module Auth {
  import opened Wrappers
  import opened Domain
  import opened Storage

  /** A demo account: the session user plus its password. */
  datatype MockUser = MockUser(id: string, email: string, password: string, name: string, userType: UserType)

  /** The session record: the account without its password. */
  function ToUser(m: MockUser): (u: User)
    ensures u.id == m.id && u.name == m.name && u.email == m.email && u.userType == m.userType
  {
    User(m.id, m.name, m.email, m.userType)
  }

  /** The accounts in the order the login searches them: student,
      teacher, administrator. */
  const MockUsers: seq<MockUser> := [
    MockUser("1", "alumno@colegio.com", "123456", "Jose Bayona", Alumno),
    MockUser("2", "profesor@colegio.com", "123456", "Mar\U{00ED}a Garc\U{00ED}a", Profesor),
    MockUser("3", "admin@colegio.com", "123456", "Carlos P\U{00E9}rez", Administrativo)
  ]

  predicate Matches(m: MockUser, email: string, password: string) {
    m.email == email && m.password == password
  }

  /** `find`: the first account whose email and password both match. */
  function FindUser(users: seq<MockUser>, email: string, password: string): (r: Option<MockUser>)
    ensures r.Some? <==> exists i :: 0 <= i < |users| && Matches(users[i], email, password)
    ensures r.Some? ==> r.value in users && Matches(r.value, email, password)
  {
    if |users| == 0 then None
    else if Matches(users[0], email, password) then Some(users[0])
    else
      var r := FindUser(users[1..], email, password);
      assert forall i :: 1 <= i < |users| ==> users[i] == users[1..][i - 1];
      r
  }

  /** When no two accounts share an email, whichever account the login
      finds is the only one with that email. */
  lemma {:induction false} FindUserUnique(users: seq<MockUser>, email: string, password: string)
    requires forall i, j :: 0 <= i < j < |users| ==> users[i].email != users[j].email
    ensures var r := FindUser(users, email, password);
            r.Some? ==> forall m :: m in users && m.email == email ==> m == r.value
  {
    if |users| > 0 && !Matches(users[0], email, password) {
      var tail := users[1..];
      assert forall i, j :: 0 <= i < j < |tail| ==> tail[i].email == users[i + 1].email && tail[j].email == users[j + 1].email;
      FindUserUnique(tail, email, password);
      var r := FindUser(users, email, password);
      if r.Some? {
        forall m | m in users && m.email == email ensures m == r.value {
          if m != users[0] {
            assert m in tail;
          }
        }
      }
    }
  }

  /** The demo table has distinct emails and ids, one account per role in
      that order, and every password is "123456". */
  lemma MockUsersTable()
    ensures forall i, j :: 0 <= i < j < |MockUsers| ==> MockUsers[i].email != MockUsers[j].email && MockUsers[i].id != MockUsers[j].id
    ensures MockUsers[0].userType == Alumno && MockUsers[1].userType == Profesor && MockUsers[2].userType == Administrativo
    ensures forall i :: 0 <= i < |MockUsers| ==> MockUsers[i].password == "123456"
  {
  }

  /** Logging in as the teacher signs in the account with id "2"; a wrong
      password signs in nobody. */
  lemma TeacherLogin()
    ensures FindUser(MockUsers, "profesor@colegio.com", "123456") == Some(MockUsers[1])
    ensures ToUser(MockUsers[1]).id == "2" && ToUser(MockUsers[1]).userType == Profesor
    ensures FindUser(MockUsers, "profesor@colegio.com", "654321") == None
  {
    assert !Matches(MockUsers[0], "profesor@colegio.com", "123456");
    assert Matches(MockUsers[1], "profesor@colegio.com", "123456");
    assert forall i :: 0 <= i < |MockUsers| ==> MockUsers[i].password != "654321";
  }

  /** The user restored at start-up: the one stored under 'user', if any. */
  function StoredUser(slots: map<string, Document>): (r: Option<User>)
    ensures r.Some? <==> UserKey in slots && slots[UserKey].UserDoc?
    ensures r.Some? ==> r.value == slots[UserKey].user
  {
    if UserKey in slots && slots[UserKey].UserDoc? then Some(slots[UserKey].user) else None
  }

  class Session {
    var user: Option<User>
    const storage: LocalStorage

    constructor (storage: LocalStorage)
      ensures this.storage == storage && user == StoredUser(storage.slots)
    {
      this.storage := storage;
      user := StoredUser(storage.slots);
    }

    /** `isAuthenticated`: someone is signed in. */
    function IsAuthenticated(): bool
      reads this
    {
      user.Some?
    }

    /** On a match the account, without its password, becomes the session
        user and is stored; otherwise nothing changes. */
    method Login(email: string, password: string) returns (ok: bool)
      modifies this, storage
      ensures ok <==> exists i :: 0 <= i < |MockUsers| && Matches(MockUsers[i], email, password)
      ensures ok ==> user == Some(ToUser(FindUser(MockUsers, email, password).value))
      ensures ok ==> storage.slots == old(storage.slots)[UserKey := UserDoc(user.value)]
      ensures !ok ==> user == old(user) && storage.slots == old(storage.slots)
      ensures ok ==> IsAuthenticated()
    {
      var found := FindUser(MockUsers, email, password);
      if found.Some? {
        var u := ToUser(found.value);
        user := Some(u);
        storage.SetItem(UserKey, UserDoc(u));
        ok := true;
      } else {
        ok := false;
      }
    }

    method Logout()
      modifies this, storage
      ensures user == None && !IsAuthenticated()
      ensures storage.slots == old(storage.slots) - {UserKey}
    {
      user := None;
      storage.RemoveItem(UserKey);
    }
  }
}
