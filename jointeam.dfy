/** The invite-code form (frontend/src/components/participant/JoinTeam.jsx):
    the field upper-cases what is typed, and the code sent is upper-cased
    and trimmed; a blank code is refused before anything is sent. */
module JoinTeam {
  import opened Common
  import opened Text

  /** The field's `onChange`: the typed text upper-cased. */
  function OnType(typed: string): (v: string)
    ensures |v| == |typed|
    ensures forall i :: 0 <= i < |typed| ==> v[i] == ToUpperChar(typed[i])
    ensures Upper(v) == v
  {
    UpperFacts(typed);
    Upper(typed)
  }

  /** `inviteCode.toUpperCase().trim()`. */
  function Normalize(code: string): (n: string)
    ensures n == Upper(Trim(code))
    ensures Trimmed(n) && Upper(n) == n
    ensures |n| <= |code|
  {
    TrimUpperCommute(code);
    TrimFacts(Upper(code));
    UpperFacts(Trim(code));
    UpperFacts(code);
    Trim(Upper(code))
  }

  datatype Outcome = Refused(message: string) | Sent(code: string)

  /** `handleSubmit`: a code that is empty once trimmed is refused with a
      message; any other code is sent normalized. */
  function Submit(code: string): (o: Outcome)
    ensures o.Refused? <==> Trim(code) == ""
    ensures o.Refused? ==> o.message == "Please enter an invite code"
    ensures o.Sent? ==> o.code == Normalize(code) && o.code != ""
  {
    if Trim(code) == "" then Refused("Please enter an invite code")
    else
      TrimUpperCommute(code);
      UpperFacts(Trim(code));
      Sent(Normalize(code))
  }

  /** Normalizing twice is normalizing once, and typing then normalizing is
      normalizing: a code typed into the field is sent as the same code. */
  lemma NormalizeIdempotent(code: string)
    ensures Normalize(Normalize(code)) == Normalize(code)
    ensures Normalize(OnType(code)) == Normalize(code)
  {
    var n := Normalize(code);
    TrimmedFixed(n);
    UpperFacts(code);
  }
}
