/** The administrator's user table (frontend/src/components/admin/UserManagement.jsx):
    the loaded users are filtered, without regard to letter case, by whether
    the search term occurs in "first last email". */
module UserManagement {
  import opened Common
  import opened Text
  import U = UserModel

  /** The text the search term is looked for in. */
  function Haystack(u: U.User): string {
    u.firstName + " " + u.lastName + " " + u.email
  }

  predicate Shown(u: U.User, term: string) {
    Contains(Lower(Haystack(u)), Lower(term))
  }

  /** `users.filter(…)`: the users whose haystack holds the term, in order. */
  function Filtered(users: seq<U.User>, term: string): (r: seq<U.User>)
    ensures forall u :: u in r <==> u in users && Shown(u, term)
    ensures Subsequence(r, users)
    ensures forall u :: Shown(u, term) ==> multiset(r)[u] == multiset(users)[u]
  {
    if users == [] then []
    else
      assert users == [users[0]] + users[1..];
      if Shown(users[0], term) then [users[0]] + Filtered(users[1..], term)
    else Filtered(users[1..], term)
  }

  /** An empty search box shows every user. */
  lemma {:induction false} EmptyTermShowsAll(users: seq<U.User>)
    ensures Filtered(users, "") == users
    decreases |users|
  {
    if users != [] {
      assert OccursAt(Lower(Haystack(users[0])), Lower(""), 0);
      EmptyTermShowsAll(users[1..]);
    }
  }

  /** Terms that differ only in letter case show the same users. */
  lemma {:induction false} CaseBlind(users: seq<U.User>, t1: string, t2: string)
    requires Lower(t1) == Lower(t2)
    ensures Filtered(users, t1) == Filtered(users, t2)
    decreases |users|
  {
    if users != [] {
      CaseBlind(users[1..], t1, t2);
    }
  }

  /** Lower-casing works character by character, so it distributes over
      concatenation. */
  lemma LowerConcat(a: string, b: string)
    ensures Lower(a + b) == Lower(a) + Lower(b)
  {
  }

  /** Searching for a user's full name, in any letter case, finds that user,
      although the name spans two fields. */
  lemma FullNameFindsUser(users: seq<U.User>, u: U.User, term: string)
    requires u in users
    requires Lower(term) == Lower(u.firstName + " " + u.lastName)
    ensures u in Filtered(users, term)
  {
    var name := u.firstName + " " + u.lastName;
    assert Haystack(u) == name + (" " + u.email);
    LowerConcat(name, " " + u.email);
    assert OccursAt(Lower(Haystack(u)), Lower(term), 0);
  }
}
