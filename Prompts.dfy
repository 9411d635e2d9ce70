/**
 * The three operator gates: the mode menu, the numeric track id and the
 * Y/N confirmation. Each reads one line of input, given here as a string.
 */
module Prompts {
  import opened Wrappers
  import opened Text

  datatype Mode = SingleTrack | BulkFuture

  /** The menu accepts "1" or "2" after `strip()`; anything else is an invalid choice. */
  function ChooseMode(input: string): (m: Option<Mode>)
    ensures m == Some(SingleTrack) <==> Strip(input) == "1"
    ensures m == Some(BulkFuture) <==> Strip(input) == "2"
    ensures m == None <==> Strip(input) != "1" && Strip(input) != "2"
  {
    var choice := Strip(input);
    if choice == "1" then Some(SingleTrack)
    else if choice == "2" then Some(BulkFuture)
    else None
  }

  /** The stripped id must pass `isdigit()`; it is then read with `int()`. */
  function ParseTrackId(input: string): (id: Option<nat>)
    ensures id.Some? <==> IsDigits(Strip(input))
  {
    var raw := Strip(input);
    if IsDigits(raw) then Some(DigitsValue(raw)) else None
  }

  /** Any id written in decimal, with any whitespace padding, is read back as itself. */
  lemma ParseTrackIdRoundTrip(left: string, n: nat, right: string)
    requires AllSpace(left) && AllSpace(right)
    ensures ParseTrackId(left + NatToString(n) + right) == Some(n)
  {
    var digits := NatToString(n);
    assert !IsSpace(digits[0]) && !IsSpace(digits[|digits| - 1]);
    StripPadded(left, digits, right);
    NatToStringRoundTrip(n);
  }

  /** Text with a non-digit between its first and last non-space character is refused. */
  lemma ParseTrackIdRejects(left: string, core: string, right: string, k: nat)
    requires AllSpace(left) && AllSpace(right)
    requires core == [] || (!IsSpace(core[0]) && !IsSpace(core[|core| - 1]))
    requires k < |core| && !IsDigitChar(core[k])
    ensures ParseTrackId(left + core + right) == None
  {
    StripPadded(left, core, right);
  }

  /** The confirmation gate: `answer.strip().upper() == "Y"`. */
  predicate Confirmed(answer: string) {
    Upper(Strip(answer)) == "Y"
  }

  /** Exactly a lone "y" or "Y" (with any padding) confirms. */
  lemma ConfirmedIff(answer: string)
    ensures Confirmed(answer) <==> Strip(answer) == "Y" || Strip(answer) == "y"
  {
    var s := Strip(answer);
    if Confirmed(answer) {
      assert |Upper(s)| == 1;
      assert Upper(s)[0] == 'Y';
      assert UpperChar(s[0]) == 'Y';
      assert s == [s[0]];
    }
  }
}
