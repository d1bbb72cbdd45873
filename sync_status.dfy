/*
 * Synchronisation statuses (powerpages/sync.py:104-125).
 * A status is a string of one-letter codes: a base code, optionally
 * followed by `s` (skipped) or `!` (forced), as in "Ms", "D!".
 */
module SyncStatus {
  import opened Outcomes
  import opened SyncFields

  const ADDED := 'A'
  const MODIFIED := 'M'
  const NO_CHANGES := '.'
  const DELETED := 'D'
  const SKIPPED := 's'
  const FORCED := '!'

  /** The six codes that `DESCRIPTIONS` knows. */
  predicate IsCode(c: char)
  {
    c in {ADDED, MODIFIED, NO_CHANGES, DELETED, SKIPPED, FORCED}
  }

  /** `DESCRIPTIONS[c]`; an unknown code is a `KeyError` (None). */
  function Description(c: char): (r: Option<string>)
    ensures r.Some? <==> IsCode(c)
    ensures r.Some? ==> r.value != []
  {
    if c == ADDED then Some("Added")
    else if c == MODIFIED then Some("Modified")
    else if c == NO_CHANGES then Some("No changes")
    else if c == DELETED then Some("Deleted")
    else if c == SKIPPED then Some("(skipped)")
    else if c == FORCED then Some("(forced)")
    else None
  }

  /**
   * `SyncStatus.describe(status)`: the descriptions of the codes joined by
   * single spaces; None when some code has no description.
   */
  function Describe(status: string): (r: Option<string>)
    ensures r.Some? <==> forall i :: 0 <= i < |status| ==> IsCode(status[i])
    ensures status == [] ==> r == Some([])
  {
    if status == [] then Some([])
    else
      match Description(status[0])
      case None => None
      case Some(d) =>
        match Describe(status[1..])
        case None => None
        case Some(rest) => Some(if rest == [] then d else d + " " + rest)
  }

  /** A base code followed by the skip marker is described word by word. */
  lemma DescribeSkipped(base: char)
    requires IsCode(base)
    ensures Describe([base, SKIPPED]) == Some(Description(base).value + " (skipped)")
  {
    assert [base, SKIPPED][1..] == [SKIPPED];
    assert [SKIPPED][1..] == [];
    assert Describe([SKIPPED]) == Some("(skipped)");
    var d := Description(base).value;
    assert d + " " + "(skipped)" == d + " (skipped)";
  }

  /** A base code followed by the force marker. */
  lemma DescribeForced(base: char)
    requires IsCode(base)
    ensures Describe([base, FORCED]) == Some(Description(base).value + " (forced)")
  {
    assert [base, FORCED][1..] == [FORCED];
    assert [FORCED][1..] == [];
    assert Describe([FORCED]) == Some("(forced)");
    var d := Description(base).value;
    assert d + " " + "(forced)" == d + " (forced)";
  }

  /**
   * The status that `status()` computes on either side: ADDED when the
   * counterpart is missing, MODIFIED when the normalised fields differ,
   * NO_CHANGES otherwise (sync.py:179-192 and 258-272).
   */
  function Classify(counterpart: Option<Fields>, current: Fields): (r: char)
    ensures r == ADDED <==> counterpart.None?
    ensures r == NO_CHANGES <==> counterpart == Some(current)
    ensures r == MODIFIED <==> counterpart.Some? && counterpart.value != current
    ensures IsCode(r)
  {
    match counterpart
    case None => ADDED
    case Some(other) => if other != current then MODIFIED else NO_CHANGES
  }

  /** The status with the extra marker appended (`status += ...`). */
  function Mark(base: char, applied: bool, dirty: bool): (r: string)
    ensures |r| >= 1 && r[0] == base
    ensures !applied <==> r == [base, SKIPPED]
    ensures applied && dirty <==> r == [base, FORCED]
    ensures applied && !dirty <==> r == [base]
  {
    if !applied then [base, SKIPPED]
    else if dirty then [base, FORCED]
    else [base]
  }

  /** Every status the operations produce can be described. */
  lemma MarkDescribed(base: char, applied: bool, dirty: bool)
    requires IsCode(base)
    ensures Describe(Mark(base, applied, dirty)).Some?
  {
    var r := Mark(base, applied, dirty);
    assert forall i :: 0 <= i < |r| ==> IsCode(r[i]);
  }
}
