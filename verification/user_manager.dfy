/** utils/UserManager.ts: an in-memory list of users with lookups,
    filters, an average, an e-mail validator and a summary line. The
    manager's `users` array is the sequence each operation takes (and, for
    the updating ones, returns). */
module UserManager {
  import opened Results

  datatype Profile = Profile(bio: string, website: Option<string>)

  datatype User = User(
    id: int,
    name: string,
    email: string,
    age: Option<int>,
    isActive: bool,
    tags: seq<string>,
    profile: Option<Profile>)

  /** `addUser(user)`: push onto the list and return the same user. */
  function AddUser(users: seq<User>, user: User): (r: (seq<User>, User))
    ensures |r.0| == |users| + 1 && r.0[|users|] == user
    ensures r.0[..|users|] == users
    ensures r.1 == user
  {
    (users + [user], user)
  }

  /** `getUserById(id)`: the first user with that id, if any. */
  function GetUserById(users: seq<User>, id: int): (r: Option<User>)
    ensures r.None? <==> forall i :: 0 <= i < |users| ==> users[i].id != id
    ensures r.Some? ==> exists i :: 0 <= i < |users| && users[i] == r.value && users[i].id == id
                                   && forall j :: 0 <= j < i ==> users[j].id != id
  {
    if users == [] then None
    else if users[0].id == id then Some(users[0])
    else
      var rest := GetUserById(users[1..], id);
      assert rest.Some? ==> exists i :: 1 <= i < |users| && users[i] == rest.value && users[i].id == id
                                       && forall j :: 1 <= j < i ==> users[j].id != id;
      rest
  }

  /** `Array.prototype.filter`: the users satisfying `keep`, in list order. */
  function Filter(users: seq<User>, keep: User -> bool): (r: seq<User>)
    ensures |r| <= |users|
    ensures forall u :: u in r <==> u in users && keep(u)
  {
    if users == [] then []
    else (if keep(users[0]) then [users[0]] else []) + Filter(users[1..], keep)
  }

  /** Filtering distributes over concatenation, so it keeps list order. */
  lemma {:induction false} FilterAppend(a: seq<User>, b: seq<User>, keep: User -> bool)
    ensures Filter(a + b, keep) == Filter(a, keep) + Filter(b, keep)
    decreases |a|
  {
    if a == [] {
      assert a + b == b;
    } else {
      assert (a + b)[0] == a[0];
      assert (a + b)[1..] == a[1..] + b;
      FilterAppend(a[1..], b, keep);
    }
  }

  function HasTag(tag: string): User -> bool {
    (u: User) => tag in u.tags
  }

  /** `getUsersByTag(tag)`. */
  function GetUsersByTag(users: seq<User>, tag: string): (r: seq<User>)
    ensures forall u :: u in r <==> u in users && tag in u.tags
  {
    Filter(users, HasTag(tag))
  }

  function IsActive(u: User): bool {
    u.isActive
  }

  /** `getActiveUsers()`. */
  function GetActiveUsers(users: seq<User>): (r: seq<User>)
    ensures forall u :: u in r <==> u in users && u.isActive
  {
    Filter(users, IsActive)
  }

  /** Adding a user extends each filtered view by that user exactly when it
      qualifies, keeping the earlier results in order. */
  lemma AddUserExtendsViews(users: seq<User>, user: User, tag: string)
    ensures GetActiveUsers(AddUser(users, user).0) ==
              GetActiveUsers(users) + (if user.isActive then [user] else [])
    ensures GetUsersByTag(AddUser(users, user).0, tag) ==
              GetUsersByTag(users, tag) + (if tag in user.tags then [user] else [])
  {
    FilterAppend(users, [user], IsActive);
    FilterAppend(users, [user], HasTag(tag));
  }

  /** After an add, a lookup by the new user's id finds the earlier user
      with that id if there is one, and the new user otherwise. */
  lemma AddThenGet(users: seq<User>, user: User)
    ensures GetUserById(AddUser(users, user).0, user.id) ==
              if GetUserById(users, user.id).Some? then GetUserById(users, user.id) else Some(user)
  {
    var all := AddUser(users, user).0;
    var r := GetUserById(all, user.id);
    if GetUserById(users, user.id).None? {
      assert all[|users|] == user;
    } else {
      var i :| 0 <= i < |users| && users[i] == GetUserById(users, user.id).value && users[i].id == user.id
               && forall j :: 0 <= j < i ==> users[j].id != user.id;
      var k :| 0 <= k < |all| && all[k] == r.value && all[k].id == user.id
               && forall j :: 0 <= j < k ==> all[j].id != user.id;
      assert all[i] == users[i];
      assert k == i;
    }
  }

  /** Ages of the users that have one, in list order. */
  function Ages(users: seq<User>): (r: seq<int>)
    ensures |r| == 0 <==> forall i :: 0 <= i < |users| ==> users[i].age.None?
  {
    if users == [] then []
    else (if users[0].age.Some? then [users[0].age.value] else []) + Ages(users[1..])
  }

  function Sum(xs: seq<int>): int {
    if xs == [] then 0 else xs[0] + Sum(xs[1..])
  }

  /** `calculateAverageAge()`: null when nobody has an age, otherwise the
      mean of the ages that are present. */
  function CalculateAverageAge(users: seq<User>): (r: Option<real>)
    ensures r.None? <==> forall i :: 0 <= i < |users| ==> users[i].age.None?
    ensures r.Some? ==> r.value * (|Ages(users)| as real) == Sum(Ages(users)) as real
  {
    var ages := Ages(users);
    if |ages| == 0 then None else Some(Sum(ages) as real / |ages| as real)
  }

  /** A sum of values in [lo, hi] lies between n * lo and n * hi. */
  lemma {:induction false} SumBetween(xs: seq<int>, lo: int, hi: int)
    requires forall i :: 0 <= i < |xs| ==> lo <= xs[i] <= hi
    ensures |xs| * lo <= Sum(xs) <= |xs| * hi
  {
    if xs != [] {
      SumBetween(xs[1..], lo, hi);
    }
  }

  lemma {:induction false} AgesBetween(users: seq<User>, lo: int, hi: int)
    requires forall i :: 0 <= i < |users| ==> users[i].age.Some? ==> lo <= users[i].age.value <= hi
    ensures forall i :: 0 <= i < |Ages(users)| ==> lo <= Ages(users)[i] <= hi
  {
    if users != [] {
      AgesBetween(users[1..], lo, hi);
    }
  }

  /** The average lies between any bounds on the ages that are present. */
  lemma AverageAgeBetween(users: seq<User>, lo: int, hi: int)
    requires forall i :: 0 <= i < |users| ==> users[i].age.Some? ==> lo <= users[i].age.value <= hi
    ensures CalculateAverageAge(users).Some? ==> lo as real <= CalculateAverageAge(users).value <= hi as real
  {
    var ages := Ages(users);
    AgesBetween(users, lo, hi);
    SumBetween(ages, lo, hi);
    if |ages| > 0 {
      MeanBetween(Sum(ages), |ages|, lo, hi);
    }
  }

  lemma MeanBetween(sum: int, n: nat, lo: int, hi: int)
    requires n > 0 && n * lo <= sum <= n * hi
    ensures lo as real <= sum as real / n as real <= hi as real
  {
    var m := sum as real / n as real;
    assert m * n as real == sum as real;
    assert (n * lo) as real == n as real * lo as real;
    assert (n * hi) as real == n as real * hi as real;
  }

  /** `${user.isActive}`. */
  function BoolText(b: bool): string {
    if b then "true" else "false"
  }

  /** `generateUserSummary(user)`: `<name> (<email>) - Active: <flag>`. */
  function GenerateUserSummary(user: User): (r: string)
    ensures |r| == |user.name| + |user.email| + 14 + |BoolText(user.isActive)|
    ensures r[..|user.name|] == user.name
    ensures r[|user.name|..|user.name| + 2] == " ("
    ensures r[|user.name| + 2..|user.name| + 2 + |user.email|] == user.email
    ensures r[|user.name| + 2 + |user.email|..|user.name| + 14 + |user.email|] == ") - Active: "
    ensures r[|r| - |BoolText(user.isActive)|..] == BoolText(user.isActive)
  {
    user.name + " (" + user.email + ") - Active: " + BoolText(user.isActive)
  }

  /** Users with the same name have the same summary only when their
      e-mail and activity agree: the summary can be read back. */
  lemma SummaryDeterminesFields(u: User, v: User)
    requires u.name == v.name
    requires GenerateUserSummary(u) == GenerateUserSummary(v)
    ensures u.email == v.email && u.isActive == v.isActive
  {
    SummaryFlagMark(u);
    SummaryFlagMark(v);
  }

  /** The next-to-last character of a summary tells the flag apart:
      'u' of "true", 's' of "false". */
  lemma SummaryFlagMark(user: User)
    ensures var s := GenerateUserSummary(user);
            s[|s| - 2] == if user.isActive then 'u' else 's'
  {
    var s := GenerateUserSummary(user);
    var flag := BoolText(user.isActive);
    assert s[|s| - 2] == s[|s| - |flag|..][|flag| - 2];
  }

  /** `clearUsers()`: the manager's list becomes empty. */
  function ClearUsers(): seq<User> {
    []
  }

  /** After clearing, no lookup, filter or average finds anyone. */
  lemma ClearUsersEmpties(id: int, tag: string)
    ensures GetUserById(ClearUsers(), id) == None
    ensures GetUsersByTag(ClearUsers(), tag) == []
    ensures GetActiveUsers(ClearUsers()) == []
    ensures CalculateAverageAge(ClearUsers()) == None
  {
  }

  /** JavaScript's `\s`: the ECMAScript white space and line terminator
      code points. */
  predicate IsWhitespace(c: char) {
    var n := c as int;
    n == 0x09 || n == 0x0A || n == 0x0B || n == 0x0C || n == 0x0D || n == 0x20 ||
    n == 0xA0 || n == 0x1680 || (0x2000 <= n <= 0x200A) || n == 0x2028 || n == 0x2029 ||
    n == 0x202F || n == 0x205F || n == 0x3000 || n == 0xFEFF
  }

  /** A run matched by `[^\s@]+`. */
  predicate IsPart(s: string) {
    |s| > 0 && forall i :: 0 <= i < |s| ==> s[i] != '@' && !IsWhitespace(s[i])
  }

  /** The language of `/^[^\s@]+@[^\s@]+\.[^\s@]+$/`. */
  ghost predicate MatchesEmailPattern(s: string) {
    exists local: string, host: string, top: string ::
      s == local + "@" + host + "." + top && IsPart(local) && IsPart(host) && IsPart(top)
  }

  function CountOf(s: string, c: char): nat {
    if s == [] then 0 else (if s[0] == c then 1 else 0) + CountOf(s[1..], c)
  }

  /** `validateEmail(email)`: no white space, exactly one '@' with something
      before it, and after it a '.' that is neither the first nor the last
      character of the domain. */
  predicate ValidateEmail(s: string) {
    && (forall i :: 0 <= i < |s| ==> !IsWhitespace(s[i]))
    && CountOf(s, '@') == 1
    && exists k :: 0 < k < |s| && s[k] == '@' && HasInnerDot(s[k + 1..])
  }

  predicate HasInnerDot(d: string) {
    exists j :: 0 < j < |d| - 1 && d[j] == '.'
  }

  lemma {:induction false} CountAppend(a: string, b: string, c: char)
    ensures CountOf(a + b, c) == CountOf(a, c) + CountOf(b, c)
    decreases |a|
  {
    if a == [] {
      assert a + b == b;
    } else {
      assert (a + b)[0] == a[0];
      assert (a + b)[1..] == a[1..] + b;
      CountAppend(a[1..], b, c);
    }
  }

  lemma {:induction false} CountAbsent(s: string, c: char)
    requires forall i :: 0 <= i < |s| ==> s[i] != c
    ensures CountOf(s, c) == 0
    decreases |s|
  {
    if s != [] {
      CountAbsent(s[1..], c);
    }
  }

  lemma {:induction false} CountPresent(s: string, c: char, i: nat)
    requires i < |s| && s[i] == c
    ensures CountOf(s, c) >= 1
    decreases i
  {
    if i > 0 {
      CountPresent(s[1..], c, i - 1);
    }
  }

  /** Two different positions holding c mean c occurs at least twice. */
  lemma CountTwo(s: string, c: char, i: nat, k: nat)
    requires i < k < |s| && s[i] == c && s[k] == c
    ensures CountOf(s, c) >= 2
  {
    assert s == s[..k] + s[k..];
    CountAppend(s[..k], s[k..], c);
    CountPresent(s[..k], c, i);
    CountPresent(s[k..], c, 0);
  }

  /** Every address of the pattern's shape passes the validator. */
  lemma PatternIsValid(s: string, local: string, host: string, top: string)
    requires s == local + "@" + host + "." + top && IsPart(local) && IsPart(host) && IsPart(top)
    ensures ValidateEmail(s)
  {
    var domain := host + "." + top;
    assert s == local + "@" + domain;
    forall i | 0 <= i < |s|
      ensures !IsWhitespace(s[i])
    {
      if i < |local| {
        assert s[i] == local[i];
      } else if i == |local| {
        assert s[i] == '@';
      } else if i < |local| + 1 + |host| {
        assert s[i] == host[i - |local| - 1];
      } else if i == |local| + 1 + |host| {
        assert s[i] == '.';
      } else {
        assert s[i] == top[i - |local| - 2 - |host|];
      }
    }
    CountAbsent(local, '@');
    CountAbsent(host, '@');
    CountAbsent(top, '@');
    CountAbsent(".", '@');
    CountAppend(local, "@", '@');
    CountAppend(local + "@", host, '@');
    CountAppend(local + "@" + host, ".", '@');
    CountAppend(local + "@" + host + ".", top, '@');
    var k := |local|;
    assert s[k] == '@' && s[k + 1..] == domain;
    assert domain[|host|] == '.';
    assert HasInnerDot(s[k + 1..]);
  }

  /** With a single '@', every other position holds something else. */
  lemma OnlyAt(s: string, k: nat)
    requires k < |s| && s[k] == '@' && CountOf(s, '@') == 1
    ensures forall i :: 0 <= i < |s| && i != k ==> s[i] != '@'
  {
    forall i | 0 <= i < |s| && i != k
      ensures s[i] != '@'
    {
      if s[i] == '@' {
        if i < k {
          CountTwo(s, '@', i, k);
        } else {
          CountTwo(s, '@', k, i);
        }
      }
    }
  }

  lemma SliceIsPart(s: string, lo: nat, hi: nat)
    requires lo < hi <= |s|
    requires forall i :: lo <= i < hi ==> s[i] != '@' && !IsWhitespace(s[i])
    ensures IsPart(s[lo..hi])
  {
    forall i | 0 <= i < hi - lo
      ensures s[lo..hi][i] != '@' && !IsWhitespace(s[lo..hi][i])
    {
      assert s[lo..hi][i] == s[lo + i];
    }
  }

  /** Cutting at the '@' (index k) and at a later '.' (index d) gives the
      pattern's three parts. */
  lemma PatternFromCuts(s: string, k: nat, d: nat)
    requires 0 < k && k + 1 < d && d + 1 < |s|
    requires s[k] == '@' && s[d] == '.'
    requires forall i :: 0 <= i < |s| && i != k ==> s[i] != '@' && !IsWhitespace(s[i])
    ensures MatchesEmailPattern(s)
  {
    var local, host, top := s[..k], s[k + 1..d], s[d + 1..];
    SliceIsPart(s, 0, k);
    SliceIsPart(s, k + 1, d);
    SliceIsPart(s, d + 1, |s|);
    CutTwice(s, k, d);
    assert s == local + "@" + host + "." + top;
  }

  lemma CutTwice<T>(s: seq<T>, k: nat, d: nat)
    requires k < d < |s|
    ensures s == s[..k] + [s[k]] + s[k + 1..d] + [s[d]] + s[d + 1..]
  {
  }

  /** Every address the validator accepts has the pattern's shape. */
  lemma ValidIsPattern(s: string)
    requires ValidateEmail(s)
    ensures MatchesEmailPattern(s)
  {
    var k :| 0 < k < |s| && s[k] == '@' && HasInnerDot(s[k + 1..]);
    var j :| 0 < j < |s[k + 1..]| - 1 && s[k + 1..][j] == '.';
    OnlyAt(s, k);
    PatternFromCuts(s, k, k + 1 + j);
  }

  /** The validator accepts exactly the language of the source's regular
      expression. */
  lemma ValidateEmailIsPattern(s: string)
    ensures ValidateEmail(s) <==> MatchesEmailPattern(s)
  {
    if ValidateEmail(s) {
      ValidIsPattern(s);
    }
    if MatchesEmailPattern(s) {
      var local, host, top :| s == local + "@" + host + "." + top && IsPart(local) && IsPart(host) && IsPart(top);
      PatternIsValid(s, local, host, top);
    }
  }
}
