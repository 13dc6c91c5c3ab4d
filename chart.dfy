/** The pie chart of user statuses on the administrator's dashboard: how
    many users are active, away and inactive, one slice per status that
    occurs, or a placeholder when there are no users. */
module StatusChart {
  import opened Types
  import opened Text

  /** One key of the counting dictionary and its value. */
  datatype Entry = Entry(status: UserStatus, count: nat)

  /** One slice of the pie. */
  datatype Slice = Slice(name: string, value: nat)

  datatype Chart = Placeholder(text: string) | Pie(data: seq<Slice>)

  /** The number of users with the status. */
  function Occurrences(users: seq<User>, s: UserStatus): nat
    decreases |users|
  {
    if users == [] then 0
    else Occurrences(users[..|users| - 1], s) + (if users[|users| - 1].status == s then 1 else 0)
  }

  predicate Occurs(users: seq<User>, s: UserStatus) {
    exists i :: 0 <= i < |users| && users[i].status == s
  }

  predicate Listed(t: seq<Entry>, s: UserStatus) {
    exists k :: 0 <= k < |t| && t[k].status == s
  }

  /** The sum of the values. */
  function Total(t: seq<Entry>): nat
    decreases |t|
  {
    if t == [] then 0 else Total(t[..|t| - 1]) + t[|t| - 1].count
  }

  /** One step of the `reduce`: `acc[status] = (acc[status] || 0) + 1`. A
      status already present is incremented in place; a new one is added
      at the end with the value 1, which is where the dictionary's key order
      puts it. */
  function Counted(acc: seq<Entry>, s: UserStatus): (r: seq<Entry>)
    ensures !Listed(acc, s) ==> r == acc + [Entry(s, 1)]
    decreases |acc|
  {
    if acc == [] then [Entry(s, 1)]
    else if acc[0].status == s then [Entry(s, acc[0].count + 1)] + acc[1..]
    else [acc[0]] + Counted(acc[1..], s)
  }

  /** The position of the first entry for a listed status. */
  function FirstIndex(t: seq<Entry>, s: UserStatus): (k: nat)
    requires Listed(t, s)
    ensures k < |t| && t[k].status == s
    ensures forall j :: 0 <= j < k ==> t[j].status != s
    decreases |t|
  {
    if t[0].status == s then 0
    else
      assert Listed(t[1..], s) by {
        var k :| 0 <= k < |t| && t[k].status == s;
        assert t[1..][k - 1].status == s;
      }
      FirstIndex(t[1..], s) + 1
  }

  /** A listed status has its first entry's count raised by one, in place. */
  lemma {:induction false} CountedListed(acc: seq<Entry>, s: UserStatus)
    requires Listed(acc, s)
    ensures Counted(acc, s) == acc[FirstIndex(acc, s) := Entry(s, acc[FirstIndex(acc, s)].count + 1)]
    decreases |acc|
  {
    if acc[0].status != s {
      var rest := acc[1..];
      assert Listed(rest, s) by {
        var k :| 0 <= k < |acc| && acc[k].status == s;
        assert rest[k - 1].status == s;
      }
      CountedListed(rest, s);
      var k := FirstIndex(rest, s);
      var e := Entry(s, rest[k].count + 1);
      assert FirstIndex(acc, s) == k + 1 && rest[k] == acc[k + 1];
      assert Counted(acc, s) == [acc[0]] + rest[k := e];
      assert [acc[0]] + rest[k := e] == acc[k + 1 := e];
    }
  }

  /** The counting dictionary built by the `reduce` over the users. */
  function StatusCounts(users: seq<User>): seq<Entry>
    decreases |users|
  {
    if users == [] then []
    else Counted(StatusCounts(users[..|users| - 1]), users[|users| - 1].status)
  }

  // ---------------------------------------------------------------------
  // What the dictionary holds

  predicate CountsRight(users: seq<User>, t: seq<Entry>) {
    forall k :: 0 <= k < |t| ==> t[k].count == Occurrences(users, t[k].status)
  }

  predicate Distinct(t: seq<Entry>) {
    forall i, j :: 0 <= i < j < |t| ==> t[i].status != t[j].status
  }

  predicate ListsOccurring(users: seq<User>, t: seq<Entry>) {
    forall s :: Listed(t, s) <==> Occurs(users, s)
  }

  /** Of two listed statuses, the earlier one was seen first: some user has
      it while no user up to that one has the later status. */
  predicate FirstSeenOrder(users: seq<User>, t: seq<Entry>) {
    forall i, j :: 0 <= i < j < |t| ==> SeenBefore(users, t[i].status, t[j].status)
  }

  /** Some user has status `a` while no user up to that one has `b`. */
  predicate SeenBefore(users: seq<User>, a: UserStatus, b: UserStatus) {
    exists p :: 0 <= p < |users| && users[p].status == a && SeenNoneUpTo(users, b, p)
  }

  predicate SeenNoneUpTo(users: seq<User>, b: UserStatus, p: int) {
    forall q :: 0 <= q <= p && q < |users| ==> users[q].status != b
  }

  predicate Tallies(users: seq<User>, t: seq<Entry>) {
    CountsRight(users, t) && Distinct(t) && ListsOccurring(users, t)
    && FirstSeenOrder(users, t) && Total(t) == |users|
  }

  lemma {:induction false} NoOccurrences(users: seq<User>, s: UserStatus)
    requires !Occurs(users, s)
    ensures Occurrences(users, s) == 0
    decreases |users|
  {
    if users != [] {
      var n := |users| - 1;
      forall i | 0 <= i < n ensures users[..n][i].status != s {
        assert users[..n][i] == users[i];
      }
      NoOccurrences(users[..n], s);
    }
  }

  lemma {:induction false} TotalIncremented(t: seq<Entry>, k: nat, e: Entry)
    requires k < |t| && e.count == t[k].count + 1
    ensures Total(t[k := e]) == Total(t) + 1
    decreases |t|
  {
    var n := |t| - 1;
    if k < n {
      assert t[k := e][..n] == t[..n][k := e];
      TotalIncremented(t[..n], k, e);
    } else {
      assert t[k := e][..n] == t[..n];
    }
  }

  lemma OccurrencesAppend(prev: seq<User>, u: User, x: UserStatus)
    ensures Occurrences(prev + [u], x) == Occurrences(prev, x) + (if u.status == x then 1 else 0)
  {
    assert (prev + [u])[..|prev|] == prev;
  }

  lemma OccursAppend(prev: seq<User>, u: User, x: UserStatus)
    ensures Occurs(prev + [u], x) <==> Occurs(prev, x) || u.status == x
  {
    var users := prev + [u];
    if Occurs(users, x) && u.status != x {
      var i :| 0 <= i < |users| && users[i].status == x;
      assert prev[i] == users[i];
    }
    if Occurs(prev, x) {
      var i :| 0 <= i < |prev| && prev[i].status == x;
      assert users[i] == prev[i];
    }
    if u.status == x {
      assert users[|prev|] == u;
    }
  }

  // The step for a status already in the dictionary: its value goes up by
  // one and nothing else changes.

  lemma CountsListed(prev: seq<User>, u: User, t: seq<Entry>, k: nat)
    requires CountsRight(prev, t) && Distinct(t)
    requires k < |t| && t[k].status == u.status
    ensures CountsRight(prev + [u], t[k := Entry(u.status, t[k].count + 1)])
  {
    var r := t[k := Entry(u.status, t[k].count + 1)];
    forall m | 0 <= m < |r| ensures r[m].count == Occurrences(prev + [u], r[m].status) {
      OccurrencesAppend(prev, u, r[m].status);
      if m != k {
        assert r[m] == t[m];
        assert t[m].status != u.status by {
          if m < k {
            assert t[m].status != t[k].status;
          } else {
            assert t[k].status != t[m].status;
          }
        }
      }
    }
  }

  lemma ListsListed(prev: seq<User>, u: User, t: seq<Entry>, k: nat)
    requires ListsOccurring(prev, t)
    requires k < |t| && t[k].status == u.status
    ensures ListsOccurring(prev + [u], t[k := Entry(u.status, t[k].count + 1)])
  {
    var r := t[k := Entry(u.status, t[k].count + 1)];
    forall x ensures Listed(r, x) <==> Occurs(prev + [u], x) {
      OccursAppend(prev, u, x);
      if Listed(t, x) {
        var m :| 0 <= m < |t| && t[m].status == x;
        assert r[m].status == x;
      }
      if Listed(r, x) {
        var m :| 0 <= m < |r| && r[m].status == x;
        assert t[m].status == x;
      }
    }
  }

  lemma FirstSeenListed(prev: seq<User>, u: User, t: seq<Entry>, k: nat)
    requires FirstSeenOrder(prev, t)
    requires k < |t| && t[k].status == u.status
    ensures FirstSeenOrder(prev + [u], t[k := Entry(u.status, t[k].count + 1)])
  {
    var r := t[k := Entry(u.status, t[k].count + 1)];
    var users := prev + [u];
    forall i, j | 0 <= i < j < |r|
      ensures SeenBefore(users, r[i].status, r[j].status)
    {
      assert SeenBefore(prev, t[i].status, t[j].status);
      var p :| 0 <= p < |prev| && prev[p].status == t[i].status && SeenNoneUpTo(prev, t[j].status, p);
      assert r[i].status == t[i].status && r[j].status == t[j].status;
      assert users[p] == prev[p];
      assert forall q :: 0 <= q <= p ==> users[q] == prev[q];
      assert SeenNoneUpTo(users, r[j].status, p);
    }
  }

  // The step for a status seen for the first time: it is added at the end
  // with the value one.

  lemma CountsNew(prev: seq<User>, u: User, t: seq<Entry>)
    requires CountsRight(prev, t) && !Listed(t, u.status) && !Occurs(prev, u.status)
    ensures CountsRight(prev + [u], t + [Entry(u.status, 1)])
  {
    var r := t + [Entry(u.status, 1)];
    NoOccurrences(prev, u.status);
    forall m | 0 <= m < |r| ensures r[m].count == Occurrences(prev + [u], r[m].status) {
      OccurrencesAppend(prev, u, r[m].status);
      if m < |t| {
        assert r[m] == t[m];
        assert t[m].status != u.status;
      }
    }
  }

  lemma ListsNew(prev: seq<User>, u: User, t: seq<Entry>)
    requires ListsOccurring(prev, t)
    ensures ListsOccurring(prev + [u], t + [Entry(u.status, 1)])
  {
    var r := t + [Entry(u.status, 1)];
    forall x ensures Listed(r, x) <==> Occurs(prev + [u], x) {
      OccursAppend(prev, u, x);
      if Listed(t, x) {
        var m :| 0 <= m < |t| && t[m].status == x;
        assert r[m].status == x;
      }
      if Listed(r, x) {
        var m :| 0 <= m < |r| && r[m].status == x;
        if m < |t| {
          assert t[m].status == x;
        }
      }
      if x == u.status {
        assert r[|t|].status == x;
      }
    }
  }

  lemma FirstSeenNew(prev: seq<User>, u: User, t: seq<Entry>)
    requires FirstSeenOrder(prev, t) && ListsOccurring(prev, t) && !Occurs(prev, u.status)
    ensures FirstSeenOrder(prev + [u], t + [Entry(u.status, 1)])
  {
    var r := t + [Entry(u.status, 1)];
    var users := prev + [u];
    forall i, j | 0 <= i < j < |r|
      ensures SeenBefore(users, r[i].status, r[j].status)
    {
      var p: nat;
      if j < |t| {
        assert SeenBefore(prev, t[i].status, t[j].status);
        p :| 0 <= p < |prev| && prev[p].status == t[i].status && SeenNoneUpTo(prev, t[j].status, p);
      } else {
        assert Listed(t, t[i].status);
        assert Occurs(prev, t[i].status);
        p :| 0 <= p < |prev| && prev[p].status == t[i].status;
        assert forall q :: 0 <= q < |prev| ==> prev[q].status != u.status;
      }
      assert users[p] == prev[p];
      assert forall q :: 0 <= q <= p ==> users[q] == prev[q];
      assert SeenNoneUpTo(users, r[j].status, p);
    }
  }

  lemma DistinctNew(t: seq<Entry>, s: UserStatus)
    requires Distinct(t) && !Listed(t, s)
    ensures Distinct(t + [Entry(s, 1)])
  {
    var r := t + [Entry(s, 1)];
    forall i, j | 0 <= i < j < |r| ensures r[i].status != r[j].status {
      if j == |t| {
        assert r[i] == t[i];
      }
    }
  }

  lemma TotalAppend(t: seq<Entry>, e: Entry)
    ensures Total(t + [e]) == Total(t) + e.count
  {
    assert (t + [e])[..|t|] == t;
  }

  /** The dictionary counts every status correctly, lists each status that
      occurs exactly once and in the order it was first seen, and its values
      add up to the number of users. */
  lemma TalliesListed(prev: seq<User>, u: User, t: seq<Entry>, k: nat)
    requires Tallies(prev, t)
    requires k < |t| && t[k].status == u.status
    ensures Tallies(prev + [u], t[k := Entry(u.status, t[k].count + 1)])
  {
    CountsListed(prev, u, t, k);
    ListsListed(prev, u, t, k);
    FirstSeenListed(prev, u, t, k);
    TotalIncremented(t, k, Entry(u.status, t[k].count + 1));
    var r := t[k := Entry(u.status, t[k].count + 1)];
    assert forall m :: 0 <= m < |r| ==> r[m].status == t[m].status;
  }

  lemma TalliesNew(prev: seq<User>, u: User, t: seq<Entry>)
    requires Tallies(prev, t) && !Listed(t, u.status)
    ensures Tallies(prev + [u], t + [Entry(u.status, 1)])
  {
    assert !Occurs(prev, u.status);
    CountsNew(prev, u, t);
    ListsNew(prev, u, t);
    FirstSeenNew(prev, u, t);
    DistinctNew(t, u.status);
    TotalAppend(t, Entry(u.status, 1));
  }

  lemma {:induction false} StatusCountsTally(users: seq<User>)
    ensures Tallies(users, StatusCounts(users))
    decreases |users|
  {
    if users != [] {
      var n := |users| - 1;
      var prev, u := users[..n], users[n];
      assert users == prev + [u];
      StatusCountsTally(prev);
      var t := StatusCounts(prev);
      if Listed(t, u.status) {
        var k := FirstIndex(t, u.status);
        CountedListed(t, u.status);
        TalliesListed(prev, u, t, k);
      } else {
        assert StatusCounts(users) == t + [Entry(u.status, 1)];
        TalliesNew(prev, u, t);
      }
    }
  }

  // ---------------------------------------------------------------------
  // The slices

  /** `s.charAt(0).toUpperCase() + s.slice(1)`. */
  function Capitalize(s: string): (r: string)
    ensures |r| == |s|
  {
    if s == [] then [] else [UpperChar(s[0])] + s[1..]
  }

  function SliceOf(e: Entry): Slice {
    Slice(Capitalize(StatusName(e.status)), e.count)
  }

  /** The `map` from dictionary keys to slices, in key order. */
  function SlicesOf(t: seq<Entry>): (r: seq<Slice>)
    ensures |r| == |t| && forall k :: 0 <= k < |t| ==> r[k] == SliceOf(t[k])
    decreases |t|
  {
    if t == [] then [] else SlicesOf(t[..|t| - 1]) + [SliceOf(t[|t| - 1])]
  }

  /** The chart's `data`. */
  function ChartData(users: seq<User>): seq<Slice> {
    SlicesOf(StatusCounts(users))
  }

  /** What the component shows: a placeholder when there are no users,
      otherwise the pie. */
  function Render(users: seq<User>): (c: Chart)
    ensures users == [] <==> c.Placeholder?
  {
    if users == [] then Placeholder("No user data available.") else Pie(ChartData(users))
  }

  /** The sum of the slices' values. */
  function ValueSum(d: seq<Slice>): nat
    decreases |d|
  {
    if d == [] then 0 else ValueSum(d[..|d| - 1]) + d[|d| - 1].value
  }

  /** A slice's name lowercased is the status it stands for, which is how
      the slice finds its colour; the name is the status with its first
      letter in upper case. */
  lemma SliceNameColour(s: UserStatus)
    ensures ToLower(Capitalize(StatusName(s))) == StatusName(s)
    ensures Capitalize(StatusName(s))[1..] == StatusName(s)[1..]
    ensures Capitalize(StatusName(s))[0] == UpperChar(StatusName(s)[0]) != StatusName(s)[0]
  {
    var n := StatusName(s);
    assert |n| > 0;
    var c := Capitalize(n);
    forall i | 0 <= i < |n| ensures LowerChar(c[i]) == n[i] {
      if i > 0 {
        assert c[i] == n[i];
      }
    }
  }

  /** Each slice stands for a status that occurs and its value is the
      number of users with that status. */
  lemma PieValues(users: seq<User>)
    ensures var d := ChartData(users);
      forall k :: 0 <= k < |d| ==>
        exists s :: Occurs(users, s) && d[k] == Slice(Capitalize(StatusName(s)), Occurrences(users, s))
  {
    var t := StatusCounts(users);
    StatusCountsTally(users);
    var d := ChartData(users);
    forall k | 0 <= k < |d|
      ensures exists s :: Occurs(users, s) && d[k] == Slice(Capitalize(StatusName(s)), Occurrences(users, s))
    {
      assert Listed(t, t[k].status);
      assert d[k] == SliceOf(t[k]);
    }
  }

  /** Every status that occurs has a slice, and no two slices share a
      name. */
  lemma PieCovers(users: seq<User>)
    ensures var d := ChartData(users);
      (forall s :: Occurs(users, s) ==> exists k :: 0 <= k < |d| && d[k].name == Capitalize(StatusName(s)))
      && (forall i, j :: 0 <= i < j < |d| ==> d[i].name != d[j].name)
  {
    var t := StatusCounts(users);
    StatusCountsTally(users);
    var d := ChartData(users);
    forall s | Occurs(users, s) ensures exists k :: 0 <= k < |d| && d[k].name == Capitalize(StatusName(s)) {
      assert Listed(t, s);
      var k :| 0 <= k < |t| && t[k].status == s;
      assert d[k] == SliceOf(t[k]);
    }
    forall i, j | 0 <= i < j < |d| ensures d[i].name != d[j].name {
      assert d[i] == SliceOf(t[i]) && d[j] == SliceOf(t[j]);
      SliceNameColour(t[i].status);
      SliceNameColour(t[j].status);
    }
  }

  lemma {:induction false} SlicesSum(t: seq<Entry>)
    ensures ValueSum(SlicesOf(t)) == Total(t)
    decreases |t|
  {
    if t != [] {
      var n := |t| - 1;
      SlicesSum(t[..n]);
      assert SlicesOf(t)[..n] == SlicesOf(t[..n]);
    }
  }

  /** The values add up to the number of users, and a pie is shown exactly
      when there is at least one user, with at least one slice. */
  lemma PieTotal(users: seq<User>)
    ensures ValueSum(ChartData(users)) == |users|
    ensures users != [] ==> Render(users).Pie? && Render(users).data != []
  {
    StatusCountsTally(users);
    SlicesSum(StatusCounts(users));
    if users != [] {
      var t := StatusCounts(users);
      assert Occurs(users, users[0].status);
      assert Listed(t, users[0].status);
    }
  }
}
