/**
 * The SQL text the tool submits: one `UPDATE` per planned pair, joined into a
 * single `BEGIN; ...; COMMIT;` batch. Beside the builders stand readers that
 * take the text apart again, so that what the batch does can be stated as a
 * round trip.
 */
module Statements {
  import opened Wrappers
  import opened Text
  import opened Planner

  const AddedAtPrefix := "UPDATE metadata_items SET added_at = "
  const CreatedAtInfix := ", created_at = "
  const WhereInfix := " WHERE id = "

  const BeginPrefix := "BEGIN; "
  const Separator := "; "
  const CommitSuffix := "; COMMIT;"

  /** The UPDATE statement of one planned pair: it sets both timestamp columns of the row to the pair's time. */
  function UpdateStatement(u: Update): (s: string)
    ensures ';' !in s
  {
    IntHasNoSemicolon(u.ts);
    IntHasNoSemicolon(u.id);
    AddedAtPrefix + IntToString(u.ts) + CreatedAtInfix + IntToString(u.ts) + WhereInfix + IntToString(u.id)
  }

  lemma IntHasNoSemicolon(i: int)
    ensures ';' !in IntToString(i)
  {
  }

  /** One statement per planned pair, in plan order. */
  function StatementsFor(us: seq<Update>): seq<string> {
    seq(|us|, i requires 0 <= i < |us| => UpdateStatement(us[i]))
  }

  /** Python's `sep.join(xs)`. */
  function Join(xs: seq<string>, sep: string): string {
    if xs == [] then ""
    else if |xs| == 1 then xs[0]
    else xs[0] + sep + Join(xs[1..], sep)
  }

  /** The batch: the statements joined by the separator, between the transaction opener and the commit. */
  function Script(statements: seq<string>): (sql: string)
    ensures |sql| >= |BeginPrefix| + |CommitSuffix|
    ensures sql[..|BeginPrefix|] == BeginPrefix
    ensures sql[|sql| - |CommitSuffix|..] == CommitSuffix
  {
    BeginPrefix + Join(statements, Separator) + CommitSuffix
  }

  // ---------------------------------------------------------------------------
  // Reading the text back

  /** What one `UPDATE` statement assigns: `added_at`, `created_at`, and the row id. */
  datatype Assignment = Assignment(addedAt: int, createdAt: int, id: int)

  /** The assignment a planned pair is meant to perform: both fields set to its timestamp. */
  function Intended(u: Update): Assignment {
    Assignment(u.ts, u.ts, u.id)
  }

  function IntendedAll(us: seq<Update>): seq<Assignment> {
    seq(|us|, i requires 0 <= i < |us| => Intended(us[i]))
  }

  /** The number of leading decimal digits. */
  function DigitRun(s: string): (n: nat)
    ensures n <= |s|
    ensures forall i :: 0 <= i < n ==> IsDigitChar(s[i])
    ensures n == |s| || !IsDigitChar(s[n])
  {
    if s != [] && IsDigitChar(s[0]) then 1 + DigitRun(s[1..]) else 0
  }

  /** Reads a decimal integer, with an optional minus sign, off the front of `s`. */
  function ReadInt(s: string): Option<(int, string)> {
    var negative := s != [] && s[0] == '-';
    var digits := if negative then s[1..] else s;
    var n := DigitRun(digits);
    if n == 0 then None
    else
      var value: int := DigitsValue(digits[..n]);
      Some((if negative then -value else value, digits[n..]))
  }

  /** Reads the literal `lit` and then an integer. */
  function ReadAfter(s: string, lit: string): Option<(int, string)> {
    if lit <= s then ReadInt(s[|lit|..]) else None
  }

  /** Reads an `UPDATE` statement of the shape `UpdateStatement` writes. */
  function ParseUpdate(s: string): Option<Assignment> {
    match ReadAfter(s, AddedAtPrefix)
    case None => None
    case Some((added, s1)) =>
      match ReadAfter(s1, CreatedAtInfix)
      case None => None
      case Some((created, s2)) =>
        match ReadAfter(s2, WhereInfix)
        case None => None
        case Some((id, s3)) => if s3 == [] then Some(Assignment(added, created, id)) else None
  }

  /** Splits at every `"; "`. */
  function SplitStatements(s: string): (pieces: seq<string>)
    ensures |pieces| > 0
  {
    if |s| < 2 then [s]
    else if s[0] == ';' && s[1] == ' ' then [""] + SplitStatements(s[2..])
    else
      var rest := SplitStatements(s[1..]);
      [[s[0]] + rest[0]] + rest[1..]
  }

  /** The statements of a `BEGIN; ...; COMMIT;` batch, or None for other text. */
  function DecodeScript(sql: string): Option<seq<string>> {
    if |sql| >= |BeginPrefix| + |CommitSuffix|
       && sql[..|BeginPrefix|] == BeginPrefix
       && sql[|sql| - |CommitSuffix|..] == CommitSuffix
    then Some(SplitStatements(sql[|BeginPrefix|..|sql| - |CommitSuffix|]))
    else None
  }

  /** All the values, when every entry has one. */
  function AllPresent(entries: seq<Option<Assignment>>): Option<seq<Assignment>> {
    if entries == [] then Some([])
    else
      var rest := AllPresent(entries[1..]);
      if entries[0].Some? && rest.Some? then Some([entries[0].value] + rest.value) else None
  }

  /** Reads every statement; None as soon as one is not an `UPDATE` of the expected shape. */
  function ParseAll(statements: seq<string>): Option<seq<Assignment>> {
    AllPresent(seq(|statements|, k requires 0 <= k < |statements| => ParseUpdate(statements[k])))
  }

  /** The assignments a batch performs, in order, or None when it is not a batch of updates. */
  function ReadScript(sql: string): Option<seq<Assignment>> {
    match DecodeScript(sql)
    case None => None
    case Some(statements) => ParseAll(statements)
  }

  // ---------------------------------------------------------------------------
  // Round trips

  lemma {:induction false} DigitRunOfDigits(digits: string, rest: string)
    requires forall i :: 0 <= i < |digits| ==> IsDigitChar(digits[i])
    requires rest == [] || !IsDigitChar(rest[0])
    ensures DigitRun(digits + rest) == |digits|
  {
    if digits == [] {
      assert digits + rest == rest;
    } else {
      assert (digits + rest)[1..] == digits[1..] + rest;
      DigitRunOfDigits(digits[1..], rest);
    }
  }

  /** `str(i)` followed by a non-digit is read back as `i`. */
  lemma ReadIntRoundTrip(i: int, rest: string)
    requires rest == [] || !IsDigitChar(rest[0])
    ensures ReadInt(IntToString(i) + rest) == Some((i, rest))
  {
    var n: nat := if i < 0 then -i else i;
    var digits := NatToString(n);
    NatToStringRoundTrip(n);
    DigitRunOfDigits(digits, rest);
    var s := IntToString(i) + rest;
    if i < 0 {
      assert s[1..] == digits + rest;
    } else {
      assert s == digits + rest;
    }
    assert (digits + rest)[..|digits|] == digits;
    assert (digits + rest)[|digits|..] == rest;
  }

  lemma ReadAfterRoundTrip(lit: string, i: int, rest: string)
    requires rest == [] || !IsDigitChar(rest[0])
    ensures ReadAfter(lit + (IntToString(i) + rest), lit) == Some((i, rest))
  {
    assert (lit + (IntToString(i) + rest))[|lit|..] == IntToString(i) + rest;
    ReadIntRoundTrip(i, rest);
  }

  /** Every statement sets `added_at` and `created_at` to the planned timestamp, for the planned id only. */
  lemma UpdateStatementRoundTrip(u: Update)
    ensures ParseUpdate(UpdateStatement(u)) == Some(Intended(u))
  {
    var ts, id := IntToString(u.ts), IntToString(u.id);
    var tail2 := WhereInfix + (id + "");
    var tail1 := CreatedAtInfix + (ts + tail2);
    assert UpdateStatement(u) == AddedAtPrefix + (ts + tail1);
    ReadAfterRoundTrip(AddedAtPrefix, u.ts, tail1);
    ReadAfterRoundTrip(CreatedAtInfix, u.ts, tail2);
    ReadAfterRoundTrip(WhereInfix, u.id, "");
  }

  lemma {:induction false} SplitWithoutSeparator(x: string)
    requires ';' !in x
    ensures SplitStatements(x) == [x]
  {
    if |x| >= 2 {
      SplitWithoutSeparator(x[1..]);
      assert [x[0]] + x[1..] == x;
    }
  }

  lemma {:induction false} SplitAtSeparator(x: string, y: string)
    requires ';' !in x
    ensures SplitStatements(x + Separator + y) == [x] + SplitStatements(y)
  {
    if x == [] {
      assert x + Separator + y == "; " + y;
      assert ("; " + y)[2..] == y;
    } else {
      var s := x + Separator + y;
      assert s[0] == x[0] && s[1..] == x[1..] + Separator + y;
      SplitAtSeparator(x[1..], y);
      assert [x[0]] + x[1..] == x;
    }
  }

  /** Splitting a `"; "`-join of statements free of `;` gives the statements back. */
  lemma {:induction false} SplitJoin(xs: seq<string>)
    requires xs != []
    requires forall k :: 0 <= k < |xs| ==> ';' !in xs[k]
    ensures SplitStatements(Join(xs, Separator)) == xs
  {
    if |xs| == 1 {
      SplitWithoutSeparator(xs[0]);
    } else {
      SplitAtSeparator(xs[0], Join(xs[1..], Separator));
      SplitJoin(xs[1..]);
    }
  }

  /** A non-empty batch decodes to exactly the statements it was built from. */
  lemma ScriptRoundTrip(xs: seq<string>)
    requires xs != []
    requires forall k :: 0 <= k < |xs| ==> ';' !in xs[k]
    ensures DecodeScript(Script(xs)) == Some(xs)
  {
    var body := Join(xs, Separator);
    var sql := Script(xs);
    assert sql[|BeginPrefix|..|sql| - |CommitSuffix|] == body;
    SplitJoin(xs);
  }

  lemma {:induction false} AllPresentPointwise(entries: seq<Option<Assignment>>, values: seq<Assignment>)
    requires |entries| == |values|
    requires forall k :: 0 <= k < |entries| ==> entries[k] == Some(values[k])
    ensures AllPresent(entries) == Some(values)
  {
    if entries != [] {
      AllPresentPointwise(entries[1..], values[1..]);
      assert values == [values[0]] + values[1..];
    }
  }

  lemma ParseAllStatements(us: seq<Update>)
    ensures ParseAll(StatementsFor(us)) == Some(IntendedAll(us))
  {
    var ss := StatementsFor(us);
    var entries := seq(|ss|, k requires 0 <= k < |ss| => ParseUpdate(ss[k]));
    forall k | 0 <= k < |us|
      ensures entries[k] == Some(IntendedAll(us)[k])
    {
      UpdateStatementRoundTrip(us[k]);
    }
    AllPresentPointwise(entries, IntendedAll(us));
  }

  /**
   * The submitted SQL of a non-empty plan performs, in order, exactly one
   * assignment per planned pair, each setting both fields to the pair's
   * timestamp, and nothing else.
   */
  lemma ScriptPerformsPlan(us: seq<Update>)
    requires us != []
    ensures ReadScript(Script(StatementsFor(us))) == Some(IntendedAll(us))
  {
    var ss := StatementsFor(us);
    ScriptRoundTrip(ss);
    ParseAllStatements(us);
  }

  /** The parent writes of `fix_bulk_future`: one per key of `parent_min_ts`, in key order. */
  function ParentUpdates(plan: BulkPlan): seq<Update>
    requires WellFormed(plan)
  {
    seq(|plan.parentOrder|, j requires 0 <= j < |plan.parentOrder| =>
          var parent := plan.parentOrder[j];
          assert parent in plan.parentOrder;
          Update(parent, plan.parentMin[parent]))
  }

  /** The statements of `fix_bulk_future`: all track statements, then the parents in key order. */
  function PlannedUpdates(plan: BulkPlan): seq<Update>
    requires WellFormed(plan)
  {
    plan.tracks + ParentUpdates(plan)
  }

  lemma {:induction false} DistinctCard(xs: seq<ItemId>)
    requires Distinct(xs)
    ensures |set x | x in xs| == |xs|
  {
    if xs != [] {
      var rest := xs[1..];
      DistinctCard(rest);
      assert (set x | x in xs) == (set x | x in rest) + {xs[0]};
      assert xs[0] !in rest;
    }
  }

  /** A well-formed plan writes one statement per track and one per parent key. */
  lemma PlannedUpdatesCount(plan: BulkPlan)
    requires WellFormed(plan)
    ensures |PlannedUpdates(plan)| == |plan.tracks| + |plan.parentMin|
  {
    DistinctCard(plan.parentOrder);
    forall x
      ensures x in (set x | x in plan.parentOrder) <==> x in plan.parentMin.Keys
    {
    }
    assert (set x | x in plan.parentOrder) == plan.parentMin.Keys;
  }

  /** One more update appends its statement. */
  lemma StatementsForSnoc(us: seq<Update>, u: Update)
    ensures StatementsFor(us + [u]) == StatementsFor(us) + [UpdateStatement(u)]
  {
    assert forall k :: 0 <= k < |us| ==> (us + [u])[k] == us[k];
  }

  /** The statement-building loops of `fix_bulk_future`. */
  method BulkStatements(plan: BulkPlan) returns (statements: seq<string>)
    requires WellFormed(plan)
    ensures statements == StatementsFor(PlannedUpdates(plan))
    ensures |statements| == |plan.tracks| + |plan.parentMin|
  {
    statements := [];
    for i := 0 to |plan.tracks|
      invariant statements == StatementsFor(plan.tracks[..i])
    {
      StatementsForSnoc(plan.tracks[..i], plan.tracks[i]);
      assert plan.tracks[..i + 1] == plan.tracks[..i] + [plan.tracks[i]];
      statements := statements + [UpdateStatement(plan.tracks[i])];
    }
    ghost var parents := ParentUpdates(plan);
    assert plan.tracks[..|plan.tracks|] + parents[..0] == plan.tracks;
    for j := 0 to |plan.parentOrder|
      invariant statements == StatementsFor(plan.tracks + parents[..j])
    {
      var parent := plan.parentOrder[j];
      assert parent in plan.parentOrder;
      assert parents[j] == Update(parent, plan.parentMin[parent]);
      StatementsForSnoc(plan.tracks + parents[..j], parents[j]);
      assert plan.tracks + parents[..j + 1] == (plan.tracks + parents[..j]) + [parents[j]];
      statements := statements + [UpdateStatement(Update(parent, plan.parentMin[parent]))];
    }
    assert parents[..|plan.parentOrder|] == parents;
    PlannedUpdatesCount(plan);
  }
}
