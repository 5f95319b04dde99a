/** The participant's project form (frontend/src/components/participant/ProjectSubmission.jsx):
    the comma-separated technology and feature lists are split, trimmed and
    cleared of empty pieces before the form is sent, and each file input
    replaces its own list of chosen files. */
module ProjectSubmission {
  import opened Common
  import opened Text

  /** The non-empty pieces, in order (the `filter(Boolean)`). */
  function NonEmpty(pieces: seq<string>): (r: seq<string>)
    ensures forall x :: x in r <==> x in pieces && x != ""
    ensures Subsequence(r, pieces)
    ensures forall x :: x != "" ==> multiset(r)[x] == multiset(pieces)[x]
  {
    if pieces == [] then []
    else
      assert pieces == [pieces[0]] + pieces[1..];
      if pieces[0] != "" then [pieces[0]] + NonEmpty(pieces[1..])
      else NonEmpty(pieces[1..])
  }

  /** `s.split(',').map(t => t.trim()).filter(Boolean)`. */
  function ParseList(s: string): (r: seq<string>)
    ensures Subsequence(r, TrimAll(Split(s, ',')))
    ensures forall x :: x in r <==> x in TrimAll(Split(s, ',')) && x != ""
    ensures forall x :: x != "" ==> multiset(r)[x] == multiset(TrimAll(Split(s, ',')))[x]
    ensures forall i :: 0 <= i < |r| ==> r[i] != "" && ',' !in r[i] && Trimmed(r[i])
    ensures |r| <= CountChar(s, ',') + 1
  {
    var pieces := TrimAll(Split(s, ','));
    SplitJoin(s, ',');
    forall k | 0 <= k < |pieces| ensures ',' !in pieces[k] && Trimmed(pieces[k]) {
      TrimFacts(Split(s, ',')[k]);
      SliceKeepsAbsent(Split(s, ',')[k], pieces[k], ',');
    }
    forall x | x in pieces ensures ',' !in x && Trimmed(x) {
      var k :| 0 <= k < |pieces| && pieces[k] == x;
    }
    var r := NonEmpty(pieces);
    SubsequenceLength(r, pieces);
    assert forall i :: 0 <= i < |r| ==> r[i] in pieces && r[i] != "" by {
      forall i | 0 <= i < |r| ensures r[i] in pieces && r[i] != "" {
        assert r[i] in r;
      }
    }
    r
  }

  /** A character missing from `s` is missing from every piece of it. */
  lemma SliceKeepsAbsent(s: string, t: string, c: char)
    requires Contains(s, t) && c !in s
    ensures c !in t
  {
    var i :| 0 <= i <= |s| - |t| && OccursAt(s, t, i);
    forall j | 0 <= j < |t| ensures t[j] != c {
      assert t[j] == s[i + j];
    }
  }

  lemma {:induction false} SubsequenceLength<T>(xs: seq<T>, ys: seq<T>)
    requires Subsequence(xs, ys)
    ensures |xs| <= |ys|
    decreases |ys|
  {
    if xs != [] {
      if xs[0] == ys[0] && Subsequence(xs[1..], ys[1..]) {
        SubsequenceLength(xs[1..], ys[1..]);
      } else {
        SubsequenceLength(xs, ys[1..]);
      }
    }
  }

  /** The text fields of the form. */
  datatype Form = Form(
    title: string, tagline: string, description: string, problemStatement: string, solution: string,
    technologies: string, features: string, demoUrl: string, videoUrl: string, githubUrl: string)

  /** The project data `handleSubmit` sends. */
  datatype ProjectData = ProjectData(
    title: string, tagline: string, description: string, problemStatement: string, solution: string,
    technologies: seq<string>, features: seq<string>, demoUrl: string, videoUrl: string, githubUrl: string)

  /** `{...formData, technologies: …, features: …}`: only the two lists are
      rewritten. */
  function Prepare(f: Form): (d: ProjectData)
    ensures d.technologies == ParseList(f.technologies) && d.features == ParseList(f.features)
    ensures d.title == f.title && d.tagline == f.tagline && d.description == f.description
    ensures d.problemStatement == f.problemStatement && d.solution == f.solution
    ensures d.demoUrl == f.demoUrl && d.videoUrl == f.videoUrl && d.githubUrl == f.githubUrl
  {
    ProjectData(f.title, f.tagline, f.description, f.problemStatement, f.solution,
                ParseList(f.technologies), ParseList(f.features), f.demoUrl, f.videoUrl, f.githubUrl)
  }

  /** `handleFileChange`: the input named `name` gets the chosen files; every
      other list of files stays. */
  function FileChange<F>(files: map<string, seq<F>>, name: string, chosen: seq<F>): (r: map<string, seq<F>>)
    ensures r.Keys == files.Keys + {name}
    ensures r[name] == chosen
    ensures forall k :: k in files && k != name ==> r[k] == files[k]
  {
    files[name := chosen]
  }
}
