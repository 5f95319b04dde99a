/** A prize category (backend/models/Category.js): its name, the URL slug the
    pre-save hook derives from the name, its prize and judging criteria. */
module CategoryModel {
  import opened Common
  import opened Text

  /** A judging criterion with a weight in percent. */
  datatype Criterion = Criterion(name: string, description: string, weight: real)

  /** The characters a slug keeps: `[a-z0-9]`. */
  predicate IsSlugChar(c: char) { IsLower(c) || IsDigit(c) }

  predicate NotSlugChar(c: char) { !IsSlugChar(c) }

  predicate SlugOrDash(c: char) { IsSlugChar(c) || c == '-' }

  /** `.replace(/(^-|-$)/g, '')`: one leading and one trailing '-' removed. */
  function StripDashes(s: string): (r: string)
    ensures |r| <= |s|
  {
    var a := if s != [] && s[0] == '-' then s[1..] else s;
    if a != [] && a[|a| - 1] == '-' then a[..|a| - 1] else a
  }

  /** The slug of a category name: lower-cased, every run of characters
      outside `[a-z0-9]` turned into one '-', then a '-' at either end dropped. */
  function Slug(name: string): string {
    StripDashes(ReplaceRuns(Lower(name), NotSlugChar, "-"))
  }

  /** The shape of every slug: only `[a-z0-9-]`, no "--", no '-' at either end. */
  predicate IsSlug(s: string) {
    All(s, SlugOrDash) && NoAdjacent(s, '-') && (s == [] || (s[0] != '-' && s[|s| - 1] != '-'))
  }

  /** The schema validators' messages, in path order, for a category whose
      name is stored as `name` (already trimmed by the schema's setter). */
  function ValidationErrors(name: string, description: string, prizeAmount: real, criteria: seq<Criterion>): (errs: seq<string>)
    ensures errs == [] <==> (name != "" && 1 <= |description| <= 500 && prizeAmount >= 0.0
                             && forall i :: 0 <= i < |criteria| ==> 0.0 <= criteria[i].weight <= 100.0)
    ensures name == "" ==> errs != [] && errs[0] == "Please provide category name"
  {
    (if name == "" then ["Please provide category name"] else [])
    + (if description == "" then ["Please provide category description"]
     else if |description| > 500 then ["Description cannot exceed 500 characters"] else [])
    + (if prizeAmount < 0.0 then ["Prize amount cannot be negative"] else [])
    + CriteriaErrors(criteria, 0)
  }

  /** Mongoose's default `min` message for a criterion weight. */
  function BelowMinMessage(w: real): string {
    "Path `weight` (" + NumberText(w) + ") is less than minimum allowed value (0)."
  }

  /** Mongoose's default `max` message for a criterion weight. */
  function AboveMaxMessage(w: real): string {
    "Path `weight` (" + NumberText(w) + ") is more than maximum allowed value (100)."
  }

  /** Mongoose's default messages for criterion weights outside [0,100], one
      per offending criterion from position `from` on, in order. */
  function CriteriaErrors(criteria: seq<Criterion>, from: nat): (errs: seq<string>)
    requires from <= |criteria|
    ensures errs == [] <==> forall i :: from <= i < |criteria| ==> 0.0 <= criteria[i].weight <= 100.0
    ensures from < |criteria| && criteria[from].weight < 0.0 ==> errs[0] == BelowMinMessage(criteria[from].weight)
    ensures from < |criteria| && criteria[from].weight > 100.0 ==> errs[0] == AboveMaxMessage(criteria[from].weight)
    ensures |errs| <= |criteria| - from
    decreases |criteria| - from
  {
    if from == |criteria| then []
    else
      var w := criteria[from].weight;
      (if w < 0.0 then [BelowMinMessage(w)]
       else if w > 100.0 then [AboveMaxMessage(w)]
       else [])
      + CriteriaErrors(criteria, from + 1)
  }

  class Category {
    const id: Id
    var name: string
    var slug: string
    var description: string
    var prizeAmount: real
    var criteria: seq<Criterion>
    var isActive: bool

    constructor (id: Id, name: string, description: string, prizeAmount: real, criteria: seq<Criterion>)
      ensures this.id == id && this.name == Trim(name) && slug == "" && this.description == description
      ensures this.prizeAmount == prizeAmount && this.criteria == criteria && isActive
    {
      this.id := id;
      this.name := Trim(name);
      slug := "";
      this.description := description;
      this.prizeAmount := prizeAmount;
      this.criteria := criteria;
      isActive := true;
    }

    /** The pre-save hook: the slug follows the name only when the name was
        modified since the last save. */
    method PreSave(nameModified: bool)
      modifies this`slug
      ensures slug == if nameModified then Slug(name) else old(slug)
      ensures nameModified ==> IsSlug(slug)
    {
      if nameModified {
        slug := Slug(name);
        SlugShape(name);
      }
    }
  }

  // ---------------------------------------------------------------------------
  // Facts about slugs.

  /** Removing one '-' at either end keeps the characters and the absence of
      "--", and leaves no '-' at either end when there was no "--". */
  lemma StripDashesFacts(s: string)
    requires All(s, SlugOrDash) && NoAdjacent(s, '-')
    ensures IsSlug(StripDashes(s))
  {
    var a := if s != [] && s[0] == '-' then s[1..] else s;
    AllSlice(s, SlugOrDash, |s| - |a|, |s|);
    NoAdjacentSlice(s, '-', |s| - |a|, |s|);
    assert s[|s| - |a|..|s|] == a;
    assert a != [] && s != [] && s[0] == '-' ==> a[0] == s[1];
    if a != [] && a[|a| - 1] == '-' {
      var b := a[..|a| - 1];
      AllSlice(a, SlugOrDash, 0, |a| - 1);
      NoAdjacentSlice(a, '-', 0, |a| - 1);
      assert b != [] ==> b[|b| - 1] == a[|a| - 2];
    }
  }

  /** Every slug has the slug shape. */
  lemma SlugShape(name: string)
    ensures IsSlug(Slug(name))
  {
    var l := Lower(name);
    LowerFacts(name);
    assert forall i :: 0 <= i < |l| ==> NotSlugChar(l[i]) || SlugOrDash(l[i]);
    ReplaceRunsPreserves(l, NotSlugChar, "-", SlugOrDash);
    ReplaceRunsNoAdjacent(l, NotSlugChar, '-');
    StripDashesFacts(ReplaceRuns(l, NotSlugChar, "-"));
  }

  /** A name with no ASCII letter or digit has the empty slug. */
  lemma SlugOfNoAlphanumerics(name: string)
    requires forall i :: 0 <= i < |name| ==> !IsLetterOrDigit(name[i])
    ensures Slug(name) == ""
  {
    var l := Lower(name);
    assert All(l, NotSlugChar);
    if l != [] {
      ReplaceRunsAllRun(l, NotSlugChar, "-");
    }
  }

  /** Slugging a slug gives it back; so slugging twice is slugging once. */
  lemma SlugFixed(s: string)
    requires IsSlug(s)
    ensures Slug(s) == s
  {
    assert NoUpper(s);
    LowerFacts(s);
    forall i | 0 <= i < |s| - 1 ensures !(NotSlugChar(s[i]) && NotSlugChar(s[i + 1])) {
      assert SlugOrDash(s[i]) && SlugOrDash(s[i + 1]);
    }
    ReplaceRunsFixed(s, NotSlugChar, '-');
  }

  lemma SlugIdempotent(name: string)
    ensures Slug(Slug(name)) == Slug(name)
  {
    SlugShape(name);
    SlugFixed(Slug(name));
  }
}
