/*
 * What both synchronisation operations share (powerpages/sync.py:293-404):
 * their options, the confirmation prompt, and the state a run threads from
 * item to item. Console output is not modelled; `get_input` is the
 * sequence of lines the user will type.
 */
module SyncBase {
  import opened Outcomes
  import opened SyncStore

  /** The command-line options that change what a run does. */
  datatype Options = Options(dryRun: bool, noInteractive: bool, force: bool, gitAdd: bool)

  /** A decision and the input lines left after it. */
  datatype Answer = Answer(choice: bool, rest: seq<string>)

  /**
   * The state of a run between two items: both stores, the unread input,
   * the summary counters (one occurrence per item and status) and the set
   * the operation keeps of what it must not delete.
   */
  datatype Session = Session(store: Store, answers: seq<string>, summary: multiset<string>, valid: set<string>)

  /** A run that went on to its end (`error == None`) or stopped with an error. */
  datatype Run = Run(session: Session, error: Option<SyncError>)

  predicate IsYes(text: string)
  {
    text == "Y" || text == "y"
  }

  predicate IsNo(text: string)
  {
    text == "N" || text == "n"
  }

  /** A line that ends the prompt. */
  predicate Decisive(text: string)
  {
    IsYes(text) || IsNo(text)
  }

  /**
   * The prompt loop of `confirm` (sync.py:395-401): lines other than Y, y,
   * N, n are read and ignored; running out of input is an error.
   */
  function Prompt(answers: seq<string>): (r: Result<Answer, SyncError>)
    ensures r.Err? <==> forall i :: 0 <= i < |answers| ==> !Decisive(answers[i])
    ensures r.Err? ==> r.error == InputExhausted
    ensures r.Ok? ==> |r.value.rest| < |answers| && r.value.rest == answers[|answers| - |r.value.rest|..]
  {
    if answers == [] then Err(InputExhausted)
    else if IsYes(answers[0]) then Ok(Answer(true, answers[1..]))
    else if IsNo(answers[0]) then Ok(Answer(false, answers[1..]))
    else
      var r := Prompt(answers[1..]);
      SkipIgnoredLine(answers, r);
      r
  }

  /** What the prompt loop gives after an ignored first line, it gives for the whole input. */
  lemma SkipIgnoredLine(answers: seq<string>, r: Result<Answer, SyncError>)
    requires answers != [] && !Decisive(answers[0])
    requires r.Err? <==> forall i :: 0 <= i < |answers| - 1 ==> !Decisive(answers[1..][i])
    requires r.Ok? ==> |r.value.rest| < |answers| - 1 && r.value.rest == answers[1..][|answers| - 1 - |r.value.rest|..]
    ensures r.Err? <==> forall i :: 0 <= i < |answers| ==> !Decisive(answers[i])
    ensures r.Ok? ==> |r.value.rest| < |answers| && r.value.rest == answers[|answers| - |r.value.rest|..]
  {
    var n := |answers|;
    if r.Err? {
      forall i | 0 < i < n
        ensures !Decisive(answers[i])
      {
        assert answers[i] == answers[1..][i - 1];
      }
    } else {
      var k := |r.value.rest|;
      assert answers[1..][n - 1 - k..] == answers[n - k..];
      var i :| 0 <= i < n - 1 && Decisive(answers[1..][i]);
      assert answers[i + 1] == answers[1..][i];
    }
  }

  /** `BaseSyncOperation.confirm` (sync.py:363-404): always yes without interaction. */
  function Confirm(noInteractive: bool, answers: seq<string>): (r: Result<Answer, SyncError>)
    ensures noInteractive ==> r == Ok(Answer(true, answers))
    ensures !noInteractive ==> r == Prompt(answers)
  {
    if noInteractive then Ok(Answer(true, answers)) else Prompt(answers)
  }

  /** The prompt loop as the source runs it, reading one line per round. */
  method AskConfirmation(noInteractive: bool, answers: seq<string>) returns (r: Result<Answer, SyncError>)
    ensures r == Confirm(noInteractive, answers)
  {
    if noInteractive {
      return Ok(Answer(true, answers));
    }
    var choice: Option<bool> := None;
    var i := 0;
    while choice.None?
      invariant 0 <= i <= |answers|
      invariant choice.None? ==> Prompt(answers[i..]) == Prompt(answers)
      invariant choice.Some? ==> Prompt(answers) == Ok(Answer(choice.value, answers[i..]))
      decreases |answers| - i, choice.None?
    {
      if i == |answers| {
        return Err(InputExhausted);
      }
      var text := answers[i];
      assert answers[i..][1..] == answers[i + 1..];
      i := i + 1;
      if IsYes(text) {
        choice := Some(true);
      } else if IsNo(text) {
        choice := Some(false);
      }
    }
    r := Ok(Answer(choice.value, answers[i..]));
  }

  /**
   * A prompt answers the first decisive line and consumes the input up to
   * and including it.
   */
  lemma {:induction false} PromptStopsAtFirstDecisive(before: seq<string>, text: string, after: seq<string>)
    requires forall i :: 0 <= i < |before| ==> !Decisive(before[i])
    requires Decisive(text)
    ensures Prompt(before + [text] + after) == Ok(Answer(IsYes(text), after))
  {
    var all := before + [text] + after;
    if before == [] {
      assert all[1..] == after;
    } else {
      assert all[1..] == before[1..] + [text] + after;
      assert !Decisive(all[0]);
      PromptStopsAtFirstDecisive(before[1..], text, after);
    }
  }

  /**
   * The interactive side of an operation: the `no_interactive` option and
   * the lines `get_input` has still to return.
   */
  class Prompter {
    const noInteractive: bool
    var lines: seq<string>

    constructor (noInteractive: bool, lines: seq<string>)
      ensures this.noInteractive == noInteractive && this.lines == lines
    {
      this.noInteractive := noInteractive;
      this.lines := lines;
    }

    /** `self.confirm(...)`: the decision, or the error when input runs out. */
    method Ask() returns (err: Option<SyncError>, choice: bool)
      modifies this
      ensures var r := Confirm(noInteractive, old(lines));
        if r.Ok? then err.None? && choice == r.value.choice && lines == r.value.rest
        else err == Some(r.error) && lines == old(lines)
    {
      var r := AskConfirmation(noInteractive, lines);
      if r.Ok? {
        lines := r.value.rest;
        choice := r.value.choice;
        err := None;
      } else {
        choice := false;
        err := Some(r.error);
      }
    }
  }
}
