/** The public leaderboard (frontend/src/pages/Leaderboard.jsx):
    the fetched projects are sorted in place by average score, highest first,
    a missing score counting as 0; the first three ranks get their own
    colours. */
module Leaderboard {
  import opened Common

  datatype Entry = Entry(project: Id, averageScore: Option<real>)

  /** `entry.averageScore || 0`. */
  function Key(e: Entry): real {
    e.averageScore.GetOr(0.0)
  }

  /** Highest score first. */
  predicate Descending(s: seq<Entry>) {
    forall p, q :: 0 <= p < q < |s| ==> Key(s[p]) >= Key(s[q])
  }

  /** `projects.sort((a, b) => (b.averageScore || 0) - (a.averageScore || 0))`:
      an insertion sort that moves an entry left past every entry with a
      lower score, so entries with equal scores keep their order. */
  method SortByScore(a: array<Entry>)
    modifies a
    ensures Descending(a[..])
    ensures multiset(a[..]) == multiset(old(a[..]))
  {
    var i := 0;
    while i < a.Length
      invariant 0 <= i <= a.Length
      invariant Descending(a[..i])
      invariant multiset(a[..]) == multiset(old(a[..]))
    {
      Insert(a, i);
      i := i + 1;
    }
  }

  /** Moves `a[i]` left into the sorted prefix `a[..i]`. */
  method Insert(a: array<Entry>, i: nat)
    requires i < a.Length && Descending(a[..i])
    modifies a
    ensures Descending(a[..i + 1])
    ensures multiset(a[..]) == multiset(old(a[..]))
  {
    var j := i;
    while j > 0 && Key(a[j - 1]) < Key(a[j])
      invariant 0 <= j <= i
      invariant forall p, q :: 0 <= p < q <= i && p != j && q != j ==> Key(a[p]) >= Key(a[q])
      invariant forall q :: j < q <= i ==> Key(a[j]) > Key(a[q])
      invariant multiset(a[..]) == multiset(old(a[..]))
    {
      Swap(a, j - 1);
      j := j - 1;
    }
  }

  /** Exchanges `a[k]` and `a[k + 1]`. */
  method Swap(a: array<Entry>, k: nat)
    requires k + 1 < a.Length
    modifies a
    ensures a[..] == old(a[..])[k := old(a[k + 1])][k + 1 := old(a[k])]
    ensures multiset(a[..]) == multiset(old(a[..]))
  {
    a[k], a[k + 1] := a[k + 1], a[k];
  }

  /** The request parameters: a category only when one is chosen. */
  function CategoryParam(selected: string): (p: Option<string>)
    ensures p.None? <==> selected == "all"
    ensures p.Some? ==> p.value == selected
  {
    if selected != "all" then Some(selected) else None
  }

  /** `getRankColor`: gold, silver and bronze for the first three places. */
  function RankColor(index: nat): (c: string)
    ensures index == 0 ==> c == "bg-yellow-500 text-white"
    ensures index == 1 ==> c == "bg-gray-400 text-white"
    ensures index == 2 ==> c == "bg-orange-600 text-white"
    ensures index >= 3 ==> c == "bg-slate-200 dark:bg-slate-700"
  {
    match index
    case 0 => "bg-yellow-500 text-white"
    case 1 => "bg-gray-400 text-white"
    case 2 => "bg-orange-600 text-white"
    case _ => "bg-slate-200 dark:bg-slate-700"
  }

  datatype Row = Row(rank: nat, color: string, entry: Entry)

  /** One row per sorted entry: rank `index + 1`, coloured by its index. */
  function Rows(sorted: seq<Entry>): (rows: seq<Row>)
    ensures |rows| == |sorted|
    ensures forall i :: 0 <= i < |rows| ==> rows[i] == Row(i + 1, RankColor(i), sorted[i])
  {
    seq(|sorted|, i requires 0 <= i < |sorted| => Row(i + 1, RankColor(i), sorted[i]))
  }

  /** On a sorted board a better rank never has a lower score, and the
      first-ranked entry has the highest score of all. */
  lemma RanksFollowScores(sorted: seq<Entry>)
    requires Descending(sorted)
    ensures forall i, j :: 0 <= i < j < |Rows(sorted)| ==>
              Rows(sorted)[i].rank < Rows(sorted)[j].rank && Key(Rows(sorted)[i].entry) >= Key(Rows(sorted)[j].entry)
    ensures |sorted| > 0 ==> forall e :: e in sorted ==> Key(Rows(sorted)[0].entry) >= Key(e)
  {
  }
}
