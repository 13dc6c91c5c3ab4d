/** The administrator's user table: the list of users, which can be sorted
    by any column in either direction, searched by name or e-mail, and
    shortened by deleting a user. */
module UserTable {
  import opened Wrappers
  import opened Types
  import opened Text

  // ---------------------------------------------------------------------
  // Comparing column values

  /** JavaScript's `<` on two strings: the first differing character
      decides, and a proper prefix comes first. */
  function LessStr(a: string, b: string): bool
    decreases |a|
  {
    if b == [] then false
    else if a == [] then true
    else if a[0] != b[0] then a[0] < b[0]
    else LessStr(a[1..], b[1..])
  }

  lemma {:induction false} LessStrIrreflexive(a: string)
    ensures !LessStr(a, a)
    decreases |a|
  {
    if a != [] {
      LessStrIrreflexive(a[1..]);
    }
  }

  lemma {:induction false} LessStrTransitive(a: string, b: string, c: string)
    requires LessStr(a, b) && LessStr(b, c)
    ensures LessStr(a, c)
    decreases |a|
  {
    if a != [] && a[0] == b[0] && b[0] == c[0] {
      LessStrTransitive(a[1..], b[1..], c[1..]);
    }
  }

  /** Two different strings are ordered one way or the other. */
  lemma {:induction false} LessStrTotal(a: string, b: string)
    ensures a == b || LessStr(a, b) || LessStr(b, a)
    decreases |a|
  {
    if a != [] && b != [] && a[0] == b[0] {
      LessStrTotal(a[1..], b[1..]);
      if a[1..] == b[1..] {
        assert a == [a[0]] + a[1..] && b == [b[0]] + b[1..];
      }
    }
  }

  /** "Not below" is transitive: the order `<=` the sort relies on is a
      total preorder. */
  lemma LessStrNotBelowTransitive(a: string, b: string, c: string)
    requires !LessStr(c, b) && !LessStr(b, a)
    ensures !LessStr(c, a)
  {
    LessStrTotal(a, b);
    if LessStr(c, a) && LessStr(a, b) {
      LessStrTransitive(c, a, b);
    }
  }

  // ---------------------------------------------------------------------
  // Columns

  /** The fields of a user the table can be sorted by. */
  datatype SortKey = Id | Name | Email | Role | AvatarUrl | LastActive | Status

  datatype Direction = Ascending | Descending

  datatype SortConfig = SortConfig(key: SortKey, direction: Direction)

  /** A field's value: the id is a number, every other field a string. */
  datatype KeyValue = Num(n: int) | Str(s: string)

  function KeyOf(k: SortKey, u: User): (v: KeyValue)
    ensures v.Num? <==> k == Id
  {
    match k
    case Id => Num(u.id)
    case Name => Str(u.name)
    case Email => Str(u.email)
    case Role => Str(RoleName(u.role))
    case AvatarUrl => Str(u.avatarUrl)
    case LastActive => Str(u.lastActive)
    case Status => Str(StatusName(u.status))
  }

  /** `a[key] < b[key]`: numbers by value, strings as JavaScript compares
      them. */
  predicate KeyLess(k: SortKey, a: User, b: User) {
    match (KeyOf(k, a), KeyOf(k, b))
    case (Num(x), Num(y)) => x < y
    case (Str(x), Str(y)) => LessStr(x, y)
    case _ => false
  }

  /** The comparator of the sort returns -1 for `a` and `b`: `a` goes first.
      Ascending, when `a`'s value is below `b`'s; descending, when it is
      above. */
  predicate Before(c: SortConfig, a: User, b: User) {
    match c.direction
    case Ascending => KeyLess(c.key, a, b)
    case Descending => KeyLess(c.key, b, a)
  }

  lemma KeyLessAsymmetric(k: SortKey, a: User, b: User)
    requires KeyLess(k, a, b)
    ensures !KeyLess(k, b, a) && KeyOf(k, a) != KeyOf(k, b)
  {
    if k != Id {
      var x, y := KeyOf(k, a).s, KeyOf(k, b).s;
      LessStrIrreflexive(x);
      if LessStr(y, x) {
        LessStrTransitive(x, y, x);
      }
    }
  }

  /** Two users are ordered one way or the other unless their values are
      equal. */
  lemma KeyLessTotal(k: SortKey, a: User, b: User)
    ensures KeyOf(k, a) == KeyOf(k, b) || KeyLess(k, a, b) || KeyLess(k, b, a)
  {
    if k != Id {
      LessStrTotal(KeyOf(k, a).s, KeyOf(k, b).s);
    }
  }

  lemma KeyNotBelowTransitive(k: SortKey, a: User, b: User, c: User)
    requires !KeyLess(k, c, b) && !KeyLess(k, b, a)
    ensures !KeyLess(k, c, a)
  {
    if k != Id {
      LessStrNotBelowTransitive(KeyOf(k, a).s, KeyOf(k, b).s, KeyOf(k, c).s);
    }
  }

  lemma BeforeAsymmetric(c: SortConfig, a: User, b: User)
    requires Before(c, a, b)
    ensures !Before(c, b, a) && KeyOf(c.key, a) != KeyOf(c.key, b)
  {
    if c.direction == Ascending {
      KeyLessAsymmetric(c.key, a, b);
    } else {
      KeyLessAsymmetric(c.key, b, a);
    }
  }

  lemma NotBeforeTransitive(c: SortConfig, a: User, b: User, d: User)
    requires !Before(c, d, b) && !Before(c, b, a)
    ensures !Before(c, d, a)
  {
    if c.direction == Ascending {
      KeyNotBelowTransitive(c.key, a, b, d);
    } else {
      KeyNotBelowTransitive(c.key, d, b, a);
    }
  }

  // ---------------------------------------------------------------------
  // Filtering

  /** `Array.prototype.filter`: the users `keep` accepts, in order. */
  function Filtered(keep: User -> bool, us: seq<User>): (r: seq<User>)
    ensures |r| <= |us|
  {
    if us == [] then []
    else (if keep(us[0]) then [us[0]] else []) + Filtered(keep, us[1..])
  }

  lemma {:induction false} FilteredMembers(keep: User -> bool, us: seq<User>)
    ensures forall u :: u in Filtered(keep, us) <==> u in us && keep(u)
    decreases |us|
  {
    if us != [] {
      FilteredMembers(keep, us[1..]);
      assert us == [us[0]] + us[1..];
    }
  }

  /** Filtering keeps the order: it distributes over concatenation. */
  lemma {:induction false} FilteredAppend(keep: User -> bool, xs: seq<User>, ys: seq<User>)
    ensures Filtered(keep, xs + ys) == Filtered(keep, xs) + Filtered(keep, ys)
    decreases |xs|
  {
    if xs == [] {
      assert xs + ys == ys;
    } else {
      var head := if keep(xs[0]) then [xs[0]] else [];
      var a, b := Filtered(keep, xs[1..]), Filtered(keep, ys);
      assert (xs + ys)[0] == xs[0];
      assert (xs + ys)[1..] == xs[1..] + ys;
      FilteredAppend(keep, xs[1..], ys);
      assert Filtered(keep, xs + ys) == head + (a + b);
      assert head + (a + b) == (head + a) + b;
    }
  }

  /** A filter every user passes keeps the list as it is. */
  lemma {:induction false} FilteredAll(keep: User -> bool, us: seq<User>)
    requires forall k :: 0 <= k < |us| ==> keep(us[k])
    ensures Filtered(keep, us) == us
    decreases |us|
  {
    if us != [] {
      FilteredAll(keep, us[1..]);
      assert us == [us[0]] + us[1..];
    }
  }

  // ---------------------------------------------------------------------
  // Sorting

  /** No later user goes before an earlier one. */
  predicate Ordered(c: SortConfig, us: seq<User>) {
    forall i, j :: 0 <= i < j < |us| ==> !Before(c, us[j], us[i])
  }

  /** `u` placed before the first user that does not go before it. */
  function Insert(c: SortConfig, u: User, sorted: seq<User>): (r: seq<User>)
    ensures multiset(r) == multiset(sorted) + multiset{u}
  {
    if sorted == [] || !Before(c, sorted[0], u) then [u] + sorted
    else
      assert sorted == [sorted[0]] + sorted[1..];
      [sorted[0]] + Insert(c, u, sorted[1..])
  }

  /** The engine's stable sort with the table's comparator. */
  function SortBy(c: SortConfig, us: seq<User>): seq<User> {
    if us == [] then [] else Insert(c, us[0], SortBy(c, us[1..]))
  }

  /** `sortedUsers`: a copy of the list, sorted when a column is chosen. */
  function SortUsers(us: seq<User>, config: Option<SortConfig>): (r: seq<User>)
    ensures config.None? ==> r == us
  {
    match config
    case None => us
    case Some(c) => SortBy(c, us)
  }

  lemma {:induction false} InsertOrdered(c: SortConfig, u: User, sorted: seq<User>)
    requires Ordered(c, sorted)
    ensures Ordered(c, Insert(c, u, sorted))
    decreases |sorted|
  {
    var r := Insert(c, u, sorted);
    if sorted == [] || !Before(c, sorted[0], u) {
      forall j | 0 < j < |r| ensures !Before(c, r[j], r[0]) {
        assert r[j] == sorted[j - 1];
        if j > 1 {
          NotBeforeTransitive(c, u, sorted[0], sorted[j - 1]);
        }
      }
    } else {
      var rest := Insert(c, u, sorted[1..]);
      InsertOrdered(c, u, sorted[1..]);
      assert r == [sorted[0]] + rest;
      forall j | 0 < j < |r| ensures !Before(c, r[j], r[0]) {
        var y := r[j];
        assert y == rest[j - 1];
        assert y in multiset(rest);
        if y == u {
          BeforeAsymmetric(c, sorted[0], u);
        } else {
          assert y in multiset(sorted[1..]);
          var m :| 0 <= m < |sorted[1..]| && sorted[1..][m] == y;
          assert sorted[m + 1] == y;
        }
      }
    }
  }

  lemma {:induction false} SortByOrdered(c: SortConfig, us: seq<User>)
    ensures Ordered(c, SortBy(c, us)) && multiset(SortBy(c, us)) == multiset(us)
    decreases |us|
  {
    if us != [] {
      SortByOrdered(c, us[1..]);
      InsertOrdered(c, us[0], SortBy(c, us[1..]));
      assert us == [us[0]] + us[1..];
    }
  }

  /** With a column chosen, the table shows a permutation of the users,
      non-decreasing in that column when ascending and non-increasing when
      descending. */
  lemma SortedUsers(us: seq<User>, c: SortConfig)
    ensures var r := SortUsers(us, Some(c));
      multiset(r) == multiset(us)
      && (c.direction == Ascending ==> forall i, j :: 0 <= i < j < |r| ==> !KeyLess(c.key, r[j], r[i]))
      && (c.direction == Descending ==> forall i, j :: 0 <= i < j < |r| ==> !KeyLess(c.key, r[i], r[j]))
  {
    SortByOrdered(c, us);
  }

  /** The users whose value in column `k` is `v`, in order. */
  function WithKey(k: SortKey, v: KeyValue, us: seq<User>): seq<User> {
    Filtered(u => KeyOf(k, u) == v, us)
  }

  lemma {:induction false} InsertWithKey(c: SortConfig, v: KeyValue, u: User, sorted: seq<User>)
    ensures WithKey(c.key, v, Insert(c, u, sorted))
      == (if KeyOf(c.key, u) == v then [u] else []) + WithKey(c.key, v, sorted)
    decreases |sorted|
  {
    if sorted != [] && Before(c, sorted[0], u) {
      var rest := Insert(c, u, sorted[1..]);
      InsertWithKey(c, v, u, sorted[1..]);
      assert Insert(c, u, sorted) == [sorted[0]] + rest;
      assert ([sorted[0]] + rest)[1..] == rest;
      BeforeAsymmetric(c, sorted[0], u);
    } else {
      assert ([u] + sorted)[1..] == sorted;
    }
  }

  /** The sort is stable: users with equal values in the column keep their
      order in the list. */
  lemma {:induction false} SortStable(c: SortConfig, v: KeyValue, us: seq<User>)
    ensures WithKey(c.key, v, SortBy(c, us)) == WithKey(c.key, v, us)
    decreases |us|
  {
    if us != [] {
      SortStable(c, v, us[1..]);
      InsertWithKey(c, v, us[0], SortBy(c, us[1..]));
    }
  }

  /** `requestSort`: a column already sorted ascending turns descending;
      any other request sorts that column ascending. */
  function NextSort(current: Option<SortConfig>, key: SortKey): (r: SortConfig)
    ensures r.key == key
    ensures r.direction == Descending <==> current == Some(SortConfig(key, Ascending))
  {
    if current.Some? && current.value.key == key && current.value.direction == Ascending
    then SortConfig(key, Descending)
    else SortConfig(key, Ascending)
  }

  /** Clicking the same column again always flips its direction. */
  lemma SortToggles(current: Option<SortConfig>, key: SortKey)
    ensures NextSort(Some(NextSort(current, key)), key).direction != NextSort(current, key).direction
  {
  }

  // ---------------------------------------------------------------------
  // Searching

  /** The lowercased name or e-mail contains the lowercased term. */
  predicate Matches(term: string, u: User) {
    Contains(ToLower(u.name), ToLower(term)) || Contains(ToLower(u.email), ToLower(term))
  }

  /** `filteredUsers`: the users the search matches, in order. */
  function Matching(term: string, us: seq<User>): seq<User> {
    Filtered(u => Matches(term, u), us)
  }

  lemma MatchingMembers(term: string, us: seq<User>)
    ensures forall u :: u in Matching(term, us) <==> u in us && Matches(term, u)
  {
    FilteredMembers(u => Matches(term, u), us);
  }

  /** The search keeps the order: it distributes over concatenation. */
  lemma MatchingAppend(term: string, xs: seq<User>, ys: seq<User>)
    ensures Matching(term, xs + ys) == Matching(term, xs) + Matching(term, ys)
  {
    FilteredAppend(u => Matches(term, u), xs, ys);
  }

  /** An empty search shows every user. */
  lemma EmptySearchKeepsAll(us: seq<User>)
    ensures Matching([], us) == us
  {
    assert ToLower([]) == [];
    forall k | 0 <= k < |us| ensures Matches([], us[k]) {
      ContainsEmpty(ToLower(us[k].name));
    }
    FilteredAll(u => Matches([], u), us);
  }

  /** The search ignores letter case in the term. */
  lemma SearchIgnoresCase(term: string, u: User)
    ensures Matches(ToLower(term), u) <==> Matches(term, u)
  {
    assert ToLower(ToLower(term)) == ToLower(term);
  }

  // ---------------------------------------------------------------------
  // Deleting

  /** The list without the users whose id is `id`, in order. */
  function WithoutUser(us: seq<User>, id: int): seq<User> {
    Filtered((u: User) => u.id != id, us)
  }

  lemma WithoutUserMembers(us: seq<User>, id: int)
    ensures forall u :: u in WithoutUser(us, id) <==> u in us && u.id != id
  {
    FilteredMembers((u: User) => u.id != id, us);
  }

  /** Deleting keeps the order of the remaining users. */
  lemma WithoutUserAppend(xs: seq<User>, ys: seq<User>, id: int)
    ensures WithoutUser(xs + ys, id) == WithoutUser(xs, id) + WithoutUser(ys, id)
  {
    FilteredAppend((u: User) => u.id != id, xs, ys);
  }

  /** Deleting an id no user has changes nothing. */
  lemma WithoutAbsentUser(us: seq<User>, id: int)
    requires forall k :: 0 <= k < |us| ==> us[k].id != id
    ensures WithoutUser(us, id) == us
  {
    FilteredAll((u: User) => u.id != id, us);
  }

  /** The rows on screen are exactly the users the search matches, however
      the table is sorted. */
  lemma ShownMembers(term: string, us: seq<User>, config: Option<SortConfig>)
    ensures forall u :: u in Matching(term, SortUsers(us, config)) <==> u in us && Matches(term, u)
  {
    var sorted := SortUsers(us, config);
    MatchingMembers(term, sorted);
    if config.Some? {
      SortByOrdered(config.value, us);
      assert forall u :: u in sorted <==> u in multiset(sorted);
    }
  }

  // ---------------------------------------------------------------------
  // The table

  class Table {
    var users: seq<User>
    var searchTerm: string
    var sortConfig: Option<SortConfig>

    /** The table as it opens: the users given, no search, no sorting. */
    constructor (initialUsers: seq<User>)
      ensures users == initialUsers && searchTerm == [] && sortConfig.None?
    {
      users := initialUsers;
      searchTerm := [];
      sortConfig := None;
    }

    /** The rows on screen: the sorted users the search matches. */
    function Shown(): seq<User>
      reads this
    {
      Matching(searchTerm, SortUsers(users, sortConfig))
    }

    /** A new list from the parent replaces the table's list. */
    method Reset(initialUsers: seq<User>)
      modifies this`users
      ensures users == initialUsers
    {
      users := initialUsers;
    }

    /** Typing in the search box. */
    method Search(term: string)
      modifies this`searchTerm
      ensures searchTerm == term
    {
      searchTerm := term;
    }

    /** `handleDelete`: every user with the id goes, the others stay in
        order, and the same list is handed to the parent. */
    method Delete(id: int) returns (passed: seq<User>)
      modifies this`users
      ensures users == WithoutUser(old(users), id) && passed == users
    {
      users := WithoutUser(users, id);
      passed := users;
    }

    /** `requestSort`: a click on a column header. */
    method RequestSort(key: SortKey)
      modifies this`sortConfig
      ensures sortConfig == Some(NextSort(old(sortConfig), key))
    {
      var direction := Ascending;
      if sortConfig.Some? && sortConfig.value.key == key && sortConfig.value.direction == Ascending {
        direction := Descending;
      }
      sortConfig := Some(SortConfig(key, direction));
    }
  }
}
