/** The backend utilities (backend/utils/helpers.js): paging arithmetic,
    slugs, file names and extensions, grouping, field removal,
    capitalisation and date ranges. Query strings arrive already parsed:
    `parseInt` of text that is not a number is not part of this model. */
module Helpers {
  import opened Common
  import opened Text
  import Uploads

  // ---------------------------------------------------------------------------
  // getPagination and formatPaginationResponse

  datatype Paging = Paging(page: int, limit: int, skip: int)

  /** `getPagination(page = 1, limit = 10)`: an absent parameter takes its
      default. */
  function GetPagination(page: Option<int>, limit: Option<int>): (p: Paging)
    ensures p.page == page.GetOr(1) && p.limit == limit.GetOr(10)
    ensures p.page >= 1 && p.limit >= 0 ==> 0 <= p.skip && p.skip + p.limit == p.page * p.limit
    ensures page.None? ==> p.skip == 0
  {
    var pageNum := page.GetOr(1);
    var limitNum := limit.GetOr(10);
    Paging(pageNum, limitNum, (pageNum - 1) * limitNum)
  }

  /** A page count as JavaScript computes it with `Math.ceil(total / limit)`:
      dividing by a zero limit gives `Infinity`, or `NaN` for no items. */
  datatype PageCount = Pages(n: int) | Infinity | NaN

  datatype PageInfo = PageInfo(currentPage: int, totalPages: PageCount, totalItems: nat,
                               itemsPerPage: int, hasNextPage: bool, hasPrevPage: bool)

  datatype PageResponse<X> = PageResponse(data: seq<X>, pagination: PageInfo)

  /** `Math.ceil(total / limit)` for a non-negative count. */
  function CeilDiv(total: nat, limit: int): PageCount {
    if limit > 0 then Pages((total + limit - 1) / limit)
    else if limit < 0 then Pages(-(total / -limit))
    else if total == 0 then NaN
    else Infinity
  }

  /** For a positive limit, the least page count whose pages hold every
      item; no pages for a negative one; `NaN` or `Infinity` for 0. */
  lemma CeilDivMeans(total: nat, limit: int)
    ensures var c := CeilDiv(total, limit);
            && (limit > 0 ==> c.Pages? && c.n * limit >= total && (c.n - 1) * limit < total)
            && (limit < 0 ==> c.Pages? && c.n <= 0)
            && (limit == 0 ==> (c == NaN <==> total == 0) && (c == Infinity <==> total > 0))
  {
  }

  /** `page < totalPages`, with the comparisons of `Infinity` and `NaN`. */
  predicate Below(page: int, c: PageCount) {
    match c
    case Pages(n) => page < n
    case Infinity => true
    case NaN => false
  }

  /** `formatPaginationResponse(data, total, page, limit)`. */
  function FormatPagination<X>(data: seq<X>, total: nat, page: int, limit: int): (r: PageResponse<X>)
    ensures r.data == data
    ensures r.pagination.currentPage == page && r.pagination.totalItems == total && r.pagination.itemsPerPage == limit
    ensures limit > 0 ==> r.pagination.totalPages.Pages?
                          && (r.pagination.hasNextPage <==> page * limit < total)
    ensures r.pagination.hasPrevPage <==> page > 1
  {
    var totalPages := CeilDiv(total, limit);
    if limit > 0 then
      BelowMeans(page, total, limit);
      PageResponse(data, PageInfo(page, totalPages, total, limit, Below(page, totalPages), page > 1))
    else
      PageResponse(data, PageInfo(page, totalPages, total, limit, Below(page, totalPages), page > 1))
  }

  /** For a positive limit, a page is before the last one exactly when the
      items up to its end leave some over. */
  lemma BelowMeans(page: int, total: nat, limit: int)
    requires limit > 0
    ensures CeilDiv(total, limit).Pages?
    ensures Below(page, CeilDiv(total, limit)) <==> page * limit < total
  {
    CeilDivMeans(total, limit);
    var n := CeilDiv(total, limit).n;
    if page < n {
      MulMonotone(page, n - 1, limit);
    } else {
      MulMonotone(n, page, limit);
    }
  }

  lemma MulMonotone(a: int, b: int, k: nat)
    requires a <= b
    ensures a * k <= b * k
  {
  }

  /** The two helpers together: for a positive limit there is a next page
      exactly when the items skipped and the items shown leave some over,
      and a page within the page count starts before the last item. */
  lemma PagingAgrees<X>(page: int, limit: int, data: seq<X>, total: nat)
    requires page >= 1 && limit > 0
    ensures var p := GetPagination(Some(page), Some(limit));
            var info := FormatPagination(data, total, p.page, p.limit).pagination;
            && (info.hasNextPage <==> p.skip + p.limit < total)
            && (info.totalPages.Pages? && page <= info.totalPages.n ==> p.skip < total)
  {
    var p := GetPagination(Some(page), Some(limit));
    CeilDivMeans(total, limit);
    var n := CeilDiv(total, limit).n;
    assert p.skip + p.limit == page * limit;
    if page <= n {
      MulMonotone(page - 1, n - 1, limit);
    }
  }

  // ---------------------------------------------------------------------------
  // slugify

  /** `\w` or '-': what `.replace(/[^\w\-]+/g, '')` keeps. */
  predicate WordOrDash(c: char) { IsWordChar(c) || c == '-' }

  predicate NotUpper(c: char) { !IsUpper(c) }

  /** The characters of a slug: lower-case letters, digits, '_' and '-'. */
  predicate SlugChar(c: char) { IsLower(c) || IsDigit(c) || c == '_' || c == '-' }

  /** The shape of every slug: slug characters only, no "--", no '-' at
      either end. */
  predicate IsSlug(s: string) {
    All(s, SlugChar) && NoAdjacent(s, '-') && (s == [] || (s[0] != '-' && s[|s| - 1] != '-'))
  }

  /** `slugify(text)`: lower-case, trim, each run of white space to '-', drop
      what is not `\w` or '-', each run of '-' to one '-', then drop the
      leading and the trailing '-'s. */
  function Slugify(text: string): string {
    var spaced := ReplaceRuns(Trim(Lower(text)), IsSpace, "-");
    DropRunEnd(DropRun(ReplaceRuns(Keep(spaced, WordOrDash), IsDash, "-"), IsDash), IsDash)
  }

  /** Every slug has the slug shape. */
  lemma {:induction false} SlugifyShape(text: string)
    ensures IsSlug(Slugify(text))
  {
    var spaced := ReplaceRuns(Trim(Lower(text)), IsSpace, "-");
    KeptSlugChars(text);
    TidyDashesShape(Keep(spaced, WordOrDash));
  }

  /** Before the dashes are tidied, the text is already made of slug
      characters. */
  lemma {:induction false} KeptSlugChars(text: string)
    ensures All(Keep(ReplaceRuns(Trim(Lower(text)), IsSpace, "-"), WordOrDash), SlugChar)
  {
    var l := Lower(text);
    LowerFacts(text);
    assert All(l, NotUpper);
    var t := Trim(l);
    TrimPreserves(l, NotUpper);
    var a := ReplaceRuns(t, IsSpace, "-");
    ReplaceRunsPreserves(t, IsSpace, "-", NotUpper);
    KeepFacts(a, WordOrDash, NotUpper);
  }

  /** The last three steps: one '-' per run, none at either end. */
  lemma {:induction false} TidyDashesShape(b: string)
    requires All(b, SlugChar)
    ensures IsSlug(DropRunEnd(DropRun(ReplaceRuns(b, IsDash, "-"), IsDash), IsDash))
  {
    var c := ReplaceRuns(b, IsDash, "-");
    ReplaceRunsPreserves(b, IsDash, "-", SlugChar);
    ReplaceRunsNoAdjacent(b, IsDash, '-');
    var d := DropRun(c, IsDash);
    AllSlice(c, SlugChar, |c| - |d|, |c|);
    NoAdjacentSlice(c, '-', |c| - |d|, |c|);
    var e := DropRunEnd(d, IsDash);
    AllSlice(d, SlugChar, 0, |e|);
    NoAdjacentSlice(d, '-', 0, |e|);
    assert e != [] ==> e[0] == d[0];
  }

  /** A slug is its own slug. */
  lemma {:induction false} SlugifyFixed(s: string)
    requires IsSlug(s)
    ensures Slugify(s) == s
  {
    assert NoUpper(s);
    LowerFacts(s);
    TrimmedFixed(s);
    ReplaceRunsFixed(s, IsSpace, '-');
    assert All(s, WordOrDash);
    KeepFixed(s, WordOrDash);
    forall i | 0 <= i < |s| - 1 ensures !(IsDash(s[i]) && IsDash(s[i + 1])) {
      assert !(s[i] == '-' && s[i + 1] == '-');
    }
    ReplaceRunsFixed(s, IsDash, '-');
  }

  /** Slugging twice is slugging once. */
  lemma SlugifyIdempotent(text: string)
    ensures Slugify(Slugify(text)) == Slugify(text)
  {
    SlugifyShape(text);
    SlugifyFixed(Slugify(text));
  }

  // ---------------------------------------------------------------------------
  // sanitizeFilename

  /** `[a-z0-9.-]` under the `i` flag. */
  predicate FileNameChar(c: char) { IsLetterOrDigit(c) || c == '.' || c == '-' }

  /** What a sanitised name is made of. */
  predicate SafeChar(c: char) { IsLower(c) || IsDigit(c) || c == '.' || c == '-' || c == '_' }

  /** `sanitizeFilename(filename)`: every character outside `[a-z0-9.-]`
      (either case) becomes '_', then the name is lower-cased. */
  function SanitizeFilename(filename: string): string {
    Lower(seq(|filename|, i requires 0 <= i < |filename| =>
      if FileNameChar(filename[i]) then filename[i] else '_'))
  }

  /** Sanitising keeps the length and each position: a letter is
      lower-cased, a digit, '.' or '-' stays, anything else becomes '_'; so
      the result is made of safe characters, and sanitising again changes
      nothing. */
  lemma {:induction false} SanitizeFacts(filename: string)
    ensures var r := SanitizeFilename(filename);
            && |r| == |filename|
            && (forall i :: 0 <= i < |r| ==>
                  r[i] == (if FileNameChar(filename[i]) then ToLowerChar(filename[i]) else '_'))
            && All(r, SafeChar)
            && SanitizeFilename(r) == r
  {
    var r := SanitizeFilename(filename);
    assert All(r, SafeChar);
    assert forall i :: 0 <= i < |r| ==> FileNameChar(r[i]) || r[i] == '_';
    assert SanitizeFilename(r) == r;
  }

  // ---------------------------------------------------------------------------
  // getFileExtension

  /** `x >>> 0`: the integer modulo 2^32. */
  function Uint32(x: int): (u: int)
    ensures 0 <= u < 0x1_0000_0000
    ensures 0 <= x < 0x1_0000_0000 ==> u == x
    ensures -0x1_0000_0000 <= x < 0 ==> u == x + 0x1_0000_0000
  {
    x % 0x1_0000_0000
  }

  /** `filename.slice((filename.lastIndexOf('.') - 1 >>> 0) + 2)`. */
  function GetFileExtension(filename: string): string {
    var start := Uint32(Uploads.LastIndexOf(filename, '.') - 1) + 2;
    if start >= |filename| then "" else filename[start..]
  }

  /** For any name shorter than 2^32 characters: the text after the last
      '.', or "" when there is no '.' or the only '.' is the first
      character. */
  lemma {:induction false} FileExtensionMeans(filename: string)
    requires |filename| < 0x1_0000_0000
    ensures var d := Uploads.LastIndexOf(filename, '.');
            GetFileExtension(filename) == if d <= 0 then "" else filename[d + 1..]
    ensures forall i :: 0 <= i < |GetFileExtension(filename)| ==> GetFileExtension(filename)[i] != '.'
  {
    var d := Uploads.LastIndexOf(filename, '.');
    var start := Uint32(d - 1) + 2;
    if d <= 0 {
      assert start >= 0x1_0000_0000;
    } else {
      assert start == d + 1;
      var ext := GetFileExtension(filename);
      forall i | 0 <= i < |ext| ensures ext[i] != '.' {
        assert ext[i] == filename[d + 1 + i];
      }
    }
  }

  /** The two extension rules agree on a base name other than "..":
      `path.extname` is the same text with its '.', or "" when the only '.'
      is the first character or there is none. */
  lemma {:induction false} FileExtensionAgreesWithExtname(name: string)
    requires |name| < 0x1_0000_0000 && name != ".."
    requires forall i :: 0 <= i < |name| ==> name[i] != '/'
    ensures var d := Uploads.LastIndexOf(name, '.');
            Uploads.Extname(name) == if d <= 0 then "" else "." + GetFileExtension(name)
  {
    FileExtensionMeans(name);
    Uploads.ExtnameOfBaseName(name);
  }

  /** On "..", `path.extname` is "" but `getFileExtension` finds a last '.'
      past the first character and gives the empty text after it. */
  lemma FileExtensionOfDotDot()
    ensures Uploads.Extname("..") == "" && GetFileExtension("..") == ""
    ensures Uploads.LastIndexOf("..", '.') == 1
  {
    Uploads.LastIndexOfIs("..", '.', 1);
    Uploads.LastIndexOfIs("..", '/', -1);
    assert Uploads.Basename("..") == "..";
    assert Uint32(Uploads.LastIndexOf("..", '.') - 1) + 2 == 2;
  }

  // ---------------------------------------------------------------------------
  // groupBy

  /** The items whose key is `k`, in their original order. */
  function Group<X, K(==)>(items: seq<X>, key: X -> K, k: K): (g: seq<X>)
    ensures |g| <= |items|
    ensures forall j :: 0 <= j < |g| ==> key(g[j]) == k
  {
    if items == [] then []
    else Group(items[..|items| - 1], key, k) + (if key(items[|items| - 1]) == k then [items[|items| - 1]] else [])
  }

  /** A key no item has has an empty group. */
  lemma {:induction false} GroupAbsent<X, K>(items: seq<X>, key: X -> K, k: K)
    requires forall i :: 0 <= i < |items| ==> key(items[i]) != k
    ensures Group(items, key, k) == []
  {
    if items != [] {
      GroupAbsent(items[..|items| - 1], key, k);
    }
  }

  /** Every item lies in the group of its own key. */
  lemma {:induction false} GroupHasItem<X, K>(items: seq<X>, key: X -> K, i: nat)
    requires i < |items|
    ensures items[i] in Group(items, key, key(items[i]))
  {
    if i < |items| - 1 {
      GroupHasItem(items[..|items| - 1], key, i);
    }
  }

  /** `groups` holds, for each key some item of `items` has, the group of
      that key, and nothing else. */
  ghost predicate Grouped<X, K(!new)>(groups: map<K, seq<X>>, items: seq<X>, key: X -> K) {
    && (forall k :: k in groups <==> exists i :: 0 <= i < |items| && key(items[i]) == k)
    && (forall k :: k in groups ==> groups[k] == Group(items, key, k))
  }

  /** One step of the reduction: the next item joins the group of its key,
      which starts empty when the key is new. */
  lemma {:induction false} GroupedStep<X, K(!new)>(groups: map<K, seq<X>>, items: seq<X>, key: X -> K, x: X)
    requires Grouped(groups, items, key)
    ensures var k := key(x);
            Grouped(groups[k := (if k in groups then groups[k] else []) + [x]], items + [x], key)
  {
    var k := key(x);
    var more := items + [x];
    assert more[..|items|] == items;
    assert forall i :: 0 <= i < |items| ==> more[i] == items[i];
    if k !in groups {
      GroupAbsent(items, key, k);
    }
    var g := groups[k := (if k in groups then groups[k] else []) + [x]];
    forall k' ensures k' in g <==> exists i :: 0 <= i < |more| && key(more[i]) == k' {
      if k' in g && k' != k {
        var i :| 0 <= i < |items| && key(items[i]) == k';
        assert key(more[i]) == k';
      }
      if k' == k {
        assert key(more[|items|]) == k';
      }
    }
  }

  /** `groupBy(array, key)`: the keys present and, for each, its items in
      order. */
  method GroupBy<X, K(==,!new)>(items: seq<X>, key: X -> K) returns (groups: map<K, seq<X>>)
    ensures forall k :: k in groups <==> exists i :: 0 <= i < |items| && key(items[i]) == k
    ensures forall k :: k in groups ==> groups[k] == Group(items, key, k)
  {
    groups := map[];
    var n := 0;
    while n < |items|
      invariant n <= |items|
      invariant Grouped(groups, items[..n], key)
    {
      var k := key(items[n]);
      GroupedStep(groups, items[..n], key, items[n]);
      assert items[..n] + [items[n]] == items[..n + 1];
      groups := groups[k := (if k in groups then groups[k] else []) + [items[n]]];
      n := n + 1;
    }
    assert items[..n] == items;
  }

  // ---------------------------------------------------------------------------
  // removeSensitiveFields

  const DefaultSensitiveFields: seq<string> := ["password", "__v"]

  /** `removeSensitiveFields(obj, fields)`: a copy without the listed keys;
      every other key keeps its value. The object passed in is a value here,
      so it is untouched. */
  method RemoveSensitiveFields<V>(obj: map<string, V>, fields: seq<string>) returns (r: map<string, V>)
    ensures forall k :: k in r <==> k in obj && k !in fields
    ensures forall k :: k in r ==> r[k] == obj[k]
  {
    r := obj;
    var i := 0;
    while i < |fields|
      invariant i <= |fields|
      invariant forall k :: k in r <==> k in obj && k !in fields[..i]
      invariant forall k :: k in r ==> r[k] == obj[k]
    {
      r := r - {fields[i]};
      assert fields[..i + 1] == fields[..i] + [fields[i]];
      i := i + 1;
    }
    assert fields[..i] == fields;
  }

  // ---------------------------------------------------------------------------
  // capitalize and isDateInRange

  /** `capitalize(str)`: the first character upper-cased, the rest
      lower-cased. */
  function Capitalize(s: string): (r: string)
    ensures |r| == |s|
    ensures s != [] ==> r[0] == ToUpperChar(s[0]) && r[1..] == Lower(s[1..])
  {
    if s == [] then "" else [ToUpperChar(s[0])] + Lower(s[1..])
  }

  /** Capitalising ignores the case the text had, and capitalising twice is
      capitalising once. */
  lemma {:induction false} CapitalizeCase(s: string)
    ensures Capitalize(Lower(s)) == Capitalize(s)
    ensures Capitalize(Upper(s)) == Capitalize(s)
    ensures Capitalize(Capitalize(s)) == Capitalize(s)
  {
    if s != [] {
      assert Lower(s)[1..] == Lower(s[1..]);
      assert Upper(s)[1..] == Upper(s[1..]);
      LowerOfUpper(s[1..]);
      LowerFacts(s[1..]);
      assert Capitalize(s)[1..] == Lower(s[1..]);
    }
  }

  /** `isDateInRange(date, startDate, endDate)` on instants; `None` is an
      invalid date, which compares false with everything. */
  function IsDateInRange(date: Option<Time>, start: Option<Time>, end: Option<Time>): (r: bool)
    ensures r ==> date.Some? && start.Some? && end.Some?
    ensures r <==> date.Some? && start.Some? && end.Some? && start.value <= date.value <= end.value
  {
    match (date, start, end)
    case (Some(d), Some(s), Some(e)) => s <= d && d <= e
    case _ => false
  }

  /** Both ends of a range are in it, and an inverted range holds nothing. */
  lemma DateRangeEnds(start: Time, end: Time, date: Option<Time>)
    ensures IsDateInRange(Some(start), Some(start), Some(end)) <==> start <= end
    ensures IsDateInRange(Some(end), Some(start), Some(end)) <==> start <= end
    ensures start > end ==> !IsDateInRange(date, Some(start), Some(end))
  {
  }
}
