/** The upload configuration (backend/config/multer.js) and the reply of the
    upload error handler (backend/middleware/uploadMiddleware.js): the folder
    an uploaded file goes to, the name it is stored under, which files the
    filter accepts, and the size limit. The random part of a stored name is
    an input. */
module Uploads {
  import opened Common
  import opened Text

  /** `s.lastIndexOf(c)`: -1 when `c` does not occur. */
  function LastIndexOf(s: string, c: char): (r: int)
    ensures -1 <= r < |s|
    ensures r >= 0 ==> s[r] == c
    ensures forall i :: r < i < |s| ==> s[i] != c
  {
    if s == [] then -1
    else if s[|s| - 1] == c then |s| - 1
    else LastIndexOf(s[..|s| - 1], c)
  }

  /** The position after which `c` no longer occurs, and at which it does
      occur, is the last index of `c`. */
  lemma LastIndexOfIs(s: string, c: char, k: int)
    requires -1 <= k < |s| && (k >= 0 ==> s[k] == c)
    requires forall i :: k < i < |s| ==> s[i] != c
    ensures LastIndexOf(s, c) == k
  {
  }

  /** The base name of a path: what follows its last '/'. */
  function Basename(p: string): (b: string)
    ensures forall i :: 0 <= i < |b| ==> b[i] != '/'
  {
    p[LastIndexOf(p, '/') + 1..]
  }

  /** `path.extname` of a path that does not end in '/': the base name from
      its last '.', or "" when the base name has no '.', has it only at its
      start, or is "..". */
  function Extname(p: string): (e: string)
    ensures e == [] || e[0] == '.'
    ensures forall i :: 0 <= i < |e| ==> e[i] != '/'
    ensures forall i :: 0 < i < |e| ==> e[i] != '.'
  {
    var b := Basename(p);
    var d := LastIndexOf(b, '.');
    if d <= 0 || b == ".." then "" else b[d..]
  }

  /** `path.extname` of a name without '/' other than "..", by the position
      of its last '.'. */
  lemma {:induction false} ExtnameOfBaseName(name: string)
    requires name != ".."
    requires forall i :: 0 <= i < |name| ==> name[i] != '/'
    ensures var d := LastIndexOf(name, '.');
            Extname(name) == if d <= 0 then "" else "." + name[d + 1..]
  {
    LastIndexOfIs(name, '/', -1);
    assert Basename(name) == name;
    var d := LastIndexOf(name, '.');
    if d > 0 {
      DotSlice(name, d);
    }
  }

  lemma DotSlice(name: string, d: int)
    requires 0 <= d < |name| && name[d] == '.'
    ensures name[d..] == "." + name[d + 1..]
  {
    assert name[d..] == [name[d]] + name[d + 1..];
  }

  // ---------------------------------------------------------------------------
  // The storage rules.

  /** `destination`: project files and profile pictures get their own
      folders, every other field (screenshots included) the top folder. */
  function Destination(fieldname: string): (dir: string)
    ensures fieldname == "projectFiles" ==> dir == "uploads/projects"
    ensures fieldname == "profilePicture" ==> dir == "uploads/profiles"
    ensures fieldname !in ["projectFiles", "profilePicture"] ==> dir == "uploads"
  {
    if fieldname == "projectFiles" then "uploads/projects"
    else if fieldname == "profilePicture" then "uploads/profiles"
    else "uploads"
  }

  /** `filename`: the field name, '-', the unique suffix (time and random
      number) and the original extension. */
  function StoredName(fieldname: string, suffix: string, originalname: string): string {
    fieldname + "-" + suffix + Extname(originalname)
  }

  /** Where on disk a stored file is. */
  function StoredPath(fieldname: string, filename: string): string {
    Destination(fieldname) + "/" + filename
  }

  /** A stored name keeps the extension of the original name, so the file
      on disk has the extension the filter checked. */
  lemma {:induction false} StoredNameKeepsExtension(fieldname: string, suffix: string, originalname: string)
    requires fieldname != []
    requires forall i :: 0 <= i < |fieldname| ==> fieldname[i] != '.' && fieldname[i] != '/'
    requires forall i :: 0 <= i < |suffix| ==> suffix[i] != '.' && suffix[i] != '/'
    ensures Extname(StoredName(fieldname, suffix, originalname)) == Extname(originalname)
  {
    var stem := fieldname + "-" + suffix;
    forall i | 0 <= i < |stem| ensures stem[i] != '.' && stem[i] != '/' {
      if i < |fieldname| {
        assert stem[i] == fieldname[i];
      } else if i > |fieldname| {
        assert stem[i] == suffix[i - |fieldname| - 1];
      }
    }
    ExtnameAfterStem(stem, Extname(originalname));
  }

  /** A name made of a stem with no '.' or '/' and then an extension has
      that extension. */
  lemma {:induction false} ExtnameAfterStem(stem: string, e: string)
    requires |stem| >= 2
    requires forall i :: 0 <= i < |stem| ==> stem[i] != '.' && stem[i] != '/'
    requires e == [] || e[0] == '.'
    requires forall i :: 0 <= i < |e| ==> e[i] != '/'
    requires forall i :: 0 < i < |e| ==> e[i] != '.'
    ensures Extname(stem + e) == e
  {
    PlainBasename(stem, e);
    if e == [] {
      assert stem + e == stem;
      LastIndexOfIs(stem, '.', -1);
    } else {
      LastDotOfExtension(stem, e);
      assert (stem + e)[|stem|..] == e;
    }
  }

  /** Nothing in the name is a '/', so the name is its own base name. */
  lemma {:induction false} PlainBasename(stem: string, e: string)
    requires forall i :: 0 <= i < |stem| ==> stem[i] != '/'
    requires forall i :: 0 <= i < |e| ==> e[i] != '/'
    ensures Basename(stem + e) == stem + e
  {
    var s := stem + e;
    forall i | 0 <= i < |s| ensures s[i] != '/' {
      if i < |stem| {
        assert s[i] == stem[i];
      } else {
        assert s[i] == e[i - |stem|];
      }
    }
    LastIndexOfIs(s, '/', -1);
  }

  /** The last '.' of a stem followed by an extension is the extension's
      leading '.'. */
  lemma {:induction false} LastDotOfExtension(stem: string, e: string)
    requires e != [] && e[0] == '.'
    requires forall i :: 0 < i < |e| ==> e[i] != '.'
    ensures LastIndexOf(stem + e, '.') == |stem|
  {
    var s := stem + e;
    forall i | |stem| < i < |s| ensures s[i] != '.' {
      assert s[i] == e[i - |stem|];
    }
    LastIndexOfIs(s, '.', |stem|);
  }

  // ---------------------------------------------------------------------------
  // The file filter.

  const AllowedTypes: seq<string> := ["jpeg", "jpg", "png", "gif", "pdf", "doc", "docx", "zip", "rar", "mp4", "avi"]

  const InvalidTypeMessage: string :=
    "Invalid file type. Only JPEG, PNG, GIF, PDF, DOC, DOCX, ZIP, RAR, MP4, AVI are allowed."

  /** `/jpeg|jpg|png|gif|pdf|doc|docx|zip|rar|mp4|avi/.test(s)`: the pattern
      has no anchors, so any occurrence of an allowed word anywhere counts. */
  predicate MentionsAllowedType(s: string) {
    exists w, i | w in AllowedTypes && 0 <= i <= |s| :: OccursAt(s, w, i)
  }

  /** `fileFilter`: the lower-cased extension and the MIME type must both
      mention an allowed type. */
  predicate Accepted(originalname: string, mimetype: string) {
    MentionsAllowedType(Lower(Extname(originalname))) && MentionsAllowedType(mimetype)
  }

  /** The upload step for one file: a rejected file stops the request with
      the filter's error, which the upload error handler answers with 400. */
  function Screen(originalname: string, mimetype: string): (r: Option<Reply>)
    ensures r.None? <==> Accepted(originalname, mimetype)
    ensures r.Some? ==> r.value == Reply(400, InvalidTypeMessage)
  {
    if Accepted(originalname, mimetype) then None
    else Some(UploadErrorReply(InvalidTypeMessage))
  }

  /** `handleUploadError`: every upload error is a 400 with the error's own
      message, or "File upload error" without one. */
  function UploadErrorReply(message: string): (r: Reply)
    ensures r.status == 400
    ensures message != "" ==> r.message == message
    ensures r.message != ""
  {
    Reply(400, if message == "" then "File upload error" else message)
  }

  /** An allowed word at some position is enough. */
  lemma Mentions(s: string, k: nat, i: int)
    requires k < |AllowedTypes| && OccursAt(s, AllowedTypes[k], i)
    ensures MentionsAllowedType(s)
  {
  }

  /** A stem the storage rules could have produced: no '.' and no '/'. */
  predicate PlainStem(stem: string) {
    |stem| >= 2 && forall i :: 0 <= i < |stem| ==> stem[i] != '.' && stem[i] != '/'
  }

  /** The extension is checked lower-cased: a name is accepted exactly when
      the same name with its extension lower-cased is. */
  lemma FilterIgnoresCase(stem: string, e: string, mimetype: string)
    requires PlainStem(stem)
    requires e != [] && e[0] == '.'
    requires forall i :: 0 <= i < |e| ==> e[i] != '/'
    requires forall i :: 0 < i < |e| ==> e[i] != '.'
    ensures Accepted(stem + e, mimetype) <==> Accepted(stem + Lower(e), mimetype)
  {
    LowerExtension(e);
    ExtnameAfterStem(stem, e);
    ExtnameAfterStem(stem, Lower(e));
    assert Extname(stem + Lower(e)) == Lower(e);
    LowerFacts(e);
  }

  /** Lower-casing leaves '.' and '/' where they are. */
  lemma LowerExtension(e: string)
    requires e != [] && e[0] == '.'
    requires forall i :: 0 <= i < |e| ==> e[i] != '/'
    requires forall i :: 0 < i < |e| ==> e[i] != '.'
    ensures Lower(e) != [] && Lower(e)[0] == '.'
    ensures forall i :: 0 <= i < |Lower(e)| ==> Lower(e)[i] != '/'
    ensures forall i :: 0 < i < |Lower(e)| ==> Lower(e)[i] != '.'
  {
  }

  /** The match is not anchored: an extension that merely contains an
      allowed word, such as ".mp4v", passes. */
  lemma FilterIsUnanchored(stem: string, mimetype: string)
    requires PlainStem(stem) && MentionsAllowedType(mimetype)
    ensures Accepted(stem + ".mp4v", mimetype)
  {
    Mp4vExtension(stem);
    Mp4vLowerCase();
    Mp4vMentionsMp4();
  }

  lemma Mp4vExtension(stem: string)
    requires PlainStem(stem)
    ensures Extname(stem + ".mp4v") == ".mp4v"
  {
    ExtnameAfterStem(stem, ".mp4v");
  }

  lemma Mp4vLowerCase()
    ensures Lower(".mp4v") == ".mp4v"
  {
    LowerFacts(".mp4v");
  }

  lemma Mp4vMentionsMp4()
    ensures MentionsAllowedType(".mp4v")
  {
    assert ".mp4v"[1..4] == "mp4";
    Mentions(".mp4v", 9, 1);
  }

  /** A file without an extension is refused whatever its MIME type. */
  lemma FilterNeedsExtension(name: string, mimetype: string)
    requires forall i :: 0 <= i < |name| ==> name[i] != '.'
    ensures !Accepted(name, mimetype)
  {
    LastIndexOfIs(Basename(name), '.', -1);
    assert Extname(name) == "";
    assert Lower("") == "";
  }

  // ---------------------------------------------------------------------------
  // The size limit.

  const DefaultMaxFileSize: nat := 10 * 1024 * 1024

  /** What multer's `limits.fileSize` receives: the default number of bytes,
      or the environment setting's text as it stands. */
  datatype SizeLimit = Bytes(count: nat) | Setting(text: string)

  /** `process.env.MAX_FILE_SIZE || 10 * 1024 * 1024`. An environment value
      is text or absent; only an absent or empty one is falsy, so any other
      text, "0" included, is handed on unparsed. */
  function MaxFileSize(setting: Option<string>): (limit: SizeLimit)
    ensures limit.Bytes? <==> setting.None? || setting.value == ""
    ensures limit.Bytes? ==> limit.count == 10485760
    ensures limit.Setting? ==> limit.text == setting.value
  {
    if setting.Some? && setting.value != "" then Setting(setting.value) else Bytes(DefaultMaxFileSize)
  }
}
