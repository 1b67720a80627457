/** The record of which content each version of a control stood for
    (hotelcontrols/spec/lock.py). */
module SpecLock {
  import opened Basics

  /** A version and the digest of the content it names. */
  datatype Entry = Entry(version: int, digest: string)

  type Entries = map<string, Entry>

  datatype Problem = WentBackwards(control: string) | ChangedUnderItsVersion(control: string)

  /** What is wrong with one control that is recorded. */
  function ProblemWith(control: string, was: Entry, now: Entry): Option<Problem>
  {
    if now.version < was.version then Some(WentBackwards(control))
    else if now.version == was.version && now.digest != was.digest then Some(ChangedUnderItsVersion(control))
    else None
  }

  /** The version still tells the truth: it moved on, or nothing did. */
  predicate Truthful(was: Entry, now: Entry)
  {
    now.version > was.version || now == was
  }

  predicate AllTruthful(locked: Entries, current: Entries)
  {
    forall c :: c in current && c in locked ==> Truthful(locked[c], current[c])
  }

  /** These are the controls on file and recorded whose version went backwards, and those whose content
      changed under it. */
  ghost predicate ProblemsSay(locked: Entries, current: Entries, problems: seq<Problem>)
  {
    && (forall c :: WentBackwards(c) in problems <==>
          c in current && c in locked && current[c].version < locked[c].version)
    && (forall c :: ChangedUnderItsVersion(c) in problems <==>
          c in current && c in locked && current[c].version == locked[c].version
            && current[c].digest != locked[c].digest)
  }

  /** `lock_problems`: every control on file whose version no longer tells the truth. */
  method LockProblems(locked: Entries, current: Entries) returns (problems: seq<Problem>)
    ensures problems == [] <==> AllTruthful(locked, current)
    ensures forall p :: p in problems <==>
              exists c :: c in current && c in locked && ProblemWith(c, locked[c], current[c]) == Some(p)
    ensures ProblemsSay(locked, current, problems)
  {
    problems := [];
    var left := current.Keys;
    while left != {}
      invariant left <= current.Keys
      invariant forall p :: p in problems <==>
                  exists c :: c in current.Keys - left
                    && c in locked && ProblemWith(c, locked[c], current[c]) == Some(p)
      invariant problems == [] <==>
                  forall c :: c in current.Keys - left && c in locked ==> Truthful(locked[c], current[c])
      decreases left
    {
      var c :| c in left;
      if c in locked {
        var problem := ProblemWith(c, locked[c], current[c]);
        if problem.Some? {
          problems := problems + [problem.value];
          assert !Truthful(locked[c], current[c]) && c in current.Keys - (left - {c});
        }
      }
      left := left - {c};
    }
    ProblemsMean(locked, current, problems);
  }

  lemma ProblemsMean(locked: Entries, current: Entries, problems: seq<Problem>)
    requires forall p :: p in problems <==>
               exists c :: c in current && c in locked && ProblemWith(c, locked[c], current[c]) == Some(p)
    ensures ProblemsSay(locked, current, problems)
  {
    forall c | c in current && c in locked
      ensures WentBackwards(c) in problems <==> current[c].version < locked[c].version
      ensures ChangedUnderItsVersion(c) in problems <==>
                current[c].version == locked[c].version && current[c].digest != locked[c].digest
    {
      if ProblemWith(c, locked[c], current[c]).Some? {
        assert ProblemWith(c, locked[c], current[c]).value in problems;
      }
    }
  }

  /** `unlocked`: controls that are new, or bumped, and not yet recorded. */
  function Unlocked(locked: Entries, current: Entries): set<string>
  {
    set c | c in current && (c !in locked || current[c].version > locked[c].version)
  }

  /** The record after a re-lock: what is on file, or - refused - what it was. */
  function Relocked(locked: Entries, current: Entries): Entries
  {
    if AllTruthful(locked, current) then current else locked
  }

  /** `build_lock`: refuses rather than record a lie. */
  method BuildLock(locked: Entries, current: Entries) returns (r: Result<Entries, seq<Problem>>)
    ensures r.Ok? <==> AllTruthful(locked, current)
    ensures r.Ok? <==>
              forall c :: c in current && c in locked ==>
                current[c].version > locked[c].version
                || (current[c].version == locked[c].version && current[c].digest == locked[c].digest)
    ensures r.Ok? ==> r.value == current
    ensures Relocked(locked, current) == if r.Ok? then r.value else locked
    ensures r.Err? ==> r.error != [] && ProblemsSay(locked, current, r.error)
  {
    var problems := LockProblems(locked, current);
    r := if problems != [] then Err(problems) else Ok(current);
  }

  // ------------------------------------------------------------------ over every history
  /** The record after the files were re-locked as they stood, again and again. */
  function LockAfter(start: Entries, history: seq<Entries>): Entries
  {
    if history == [] then start else Relocked(LockAfter(start, history[..|history| - 1]), history[|history| - 1])
  }

  predicate Stays(control: string, history: seq<Entries>)
  {
    forall i :: 0 <= i < |history| ==> control in history[i]
  }

  /** While a control stays on file its recorded version never decreases, and one version is never
      recorded with two contents - whatever is edited, and however often a re-lock is refused. */
  lemma {:induction false} RecordNeverLies(start: Entries, history: seq<Entries>, control: string)
    requires control in start && Stays(control, history)
    ensures control in LockAfter(start, history)
    ensures Truthful(start[control], LockAfter(start, history)[control])
  {
    if history != [] {
      RecordNeverLies(start, history[..|history| - 1], control);
    }
  }

  /** Any two moments of such a history agree about what a version stood for. */
  lemma OneVersionOneContent(start: Entries, history: seq<Entries>, control: string, i: nat, j: nat)
    requires i <= j <= |history| && Stays(control, history) && control in LockAfter(start, history[..i])
    ensures control in LockAfter(start, history[..j])
    ensures var a, b := LockAfter(start, history[..i])[control], LockAfter(start, history[..j])[control];
            a.version <= b.version && (a.version == b.version ==> a.digest == b.digest)
  {
    var since := history[i..j];
    LockSplit(start, history[..i], since);
    assert history[..j] == history[..i] + since;
    RecordNeverLies(LockAfter(start, history[..i]), since, control);
  }

  lemma {:induction false} LockSplit(start: Entries, before: seq<Entries>, since: seq<Entries>)
    ensures LockAfter(start, before + since) == LockAfter(LockAfter(start, before), since)
  {
    hide Relocked;
    if since == [] {
      assert before + since == before;
    } else {
      assert (before + since)[..|before + since| - 1] == before + since[..|since| - 1];
      LockSplit(start, before, since[..|since| - 1]);
    }
  }

  /** A refused re-lock changes nothing; an accepted one leaves nothing to record and is not refused
      when it is asked again. */
  lemma RelockSettles(locked: Entries, current: Entries)
    ensures !AllTruthful(locked, current) ==> Relocked(locked, current) == locked
    ensures AllTruthful(locked, current) ==>
              var after := Relocked(locked, current);
              after == current && Unlocked(after, current) == {}
                && AllTruthful(after, current) && Relocked(after, current) == after
  {
  }

  /** Nothing waits to be recorded and nothing is wrong exactly when every control on file is recorded
      as it stands. */
  lemma CurrentIff(locked: Entries, current: Entries)
    ensures AllTruthful(locked, current) && Unlocked(locked, current) == {}
            <==> forall c :: c in current ==> c in locked && locked[c] == current[c]
  {
    if AllTruthful(locked, current) && Unlocked(locked, current) == {} {
      forall c | c in current
        ensures c in locked && locked[c] == current[c]
      {
        assert c !in Unlocked(locked, current);
      }
    }
  }

  // ------------------------------------------------------------------ controls that leave
  /** One re-lock keeps every recorded control truthful exactly when it is refused or drops none: the
      record is what is on file, and forgets what is not. */
  lemma RelockKeepsIff(locked: Entries, current: Entries)
    ensures (forall c :: c in locked ==>
              c in Relocked(locked, current) && Truthful(locked[c], Relocked(locked, current)[c]))
            <==> !AllTruthful(locked, current) || locked.Keys <= current.Keys
  {
    if AllTruthful(locked, current) && !(locked.Keys <= current.Keys) {
      var c :| c in locked && c !in current;
      assert c !in Relocked(locked, current);
    }
  }

  /** No accepted re-lock of this history found the control recorded and no longer on file. */
  predicate NeverDropped(start: Entries, history: seq<Entries>, control: string)
  {
    forall i | 0 <= i < |history| && control in LockAfter(start, history[..i]) ::
      AllTruthful(LockAfter(start, history[..i]), history[i]) ==> control in history[i]
  }

  /** What is recorded of a control at one moment still holds, or has moved on, at a later one. */
  predicate HoldsFrom(start: Entries, history: seq<Entries>, control: string, i: nat, j: nat)
    requires i <= j <= |history|
  {
    var was, now := LockAfter(start, history[..i]), LockAfter(start, history[..j]);
    control in was ==> control in now && Truthful(was[control], now[control])
  }

  lemma {:induction false} HoldsUntil(start: Entries, history: seq<Entries>, control: string, i: nat, j: nat)
    requires i <= j <= |history| && NeverDropped(start, history, control)
    ensures HoldsFrom(start, history, control, i, j)
    decreases j
  {
    if i < j {
      HoldsUntil(start, history, control, i, j - 1);
      assert history[..j][..j - 1] == history[..j - 1];
    }
  }

  /** Over every history: what is recorded of a control at one moment is recorded, truthfully, at every
      later one exactly when no accepted re-lock dropped it. */
  lemma RecordHoldsIff(start: Entries, history: seq<Entries>, control: string)
    ensures (forall i: nat, j: nat :: i <= j <= |history| ==> HoldsFrom(start, history, control, i, j))
            <==> NeverDropped(start, history, control)
  {
    if NeverDropped(start, history, control) {
      forall i: nat, j: nat | i <= j <= |history|
        ensures HoldsFrom(start, history, control, i, j)
      {
        HoldsUntil(start, history, control, i, j);
      }
    } else {
      var i: nat :| i < |history| && control in LockAfter(start, history[..i])
                    && AllTruthful(LockAfter(start, history[..i]), history[i]) && control !in history[i];
      assert history[..i + 1][..i] == history[..i];
      assert !HoldsFrom(start, history, control, i, i + 1);
    }
  }

  // ------------------------------------------------------------------ controls that come back
  /** What the record last said of a control, at the latest moment it said anything. */
  function LastSaid(start: Entries, history: seq<Entries>, control: string): Option<Entry>
  {
    var now := LockAfter(start, history);
    if control in now then Some(now[control])
    else if history == [] then None
    else LastSaid(start, history[..|history| - 1], control)
  }

  /** This re-lock is accepted and records, of a control that is off the record, what contradicts the
      last that was recorded of it: nothing is asked of a control that is not recorded. */
  predicate Contradicts(start: Entries, before: seq<Entries>, current: Entries, control: string)
  {
    var locked, last := LockAfter(start, before), LastSaid(start, before, control);
    && AllTruthful(locked, current) && control in current && control !in locked
    && last.Some? && !Truthful(last.value, current[control])
  }

  predicate NeverContradicted(start: Entries, history: seq<Entries>, control: string)
  {
    forall k | 0 <= k < |history| :: !Contradicts(start, history[..k], history[k], control)
  }

  /** Two moments that both record a control agree: the later version is higher, or nothing changed. */
  predicate Agree(start: Entries, history: seq<Entries>, control: string, i: nat, j: nat)
    requires i <= j <= |history|
  {
    var was, now := LockAfter(start, history[..i]), LockAfter(start, history[..j]);
    control in was && control in now ==> Truthful(was[control], now[control])
  }

  lemma {:induction false} LastSaidFollows(start: Entries, history: seq<Entries>, control: string, i: nat, j: nat)
    requires i <= j <= |history| && NeverContradicted(start, history, control)
    requires control in LockAfter(start, history[..i])
    ensures LastSaid(start, history[..j], control).Some?
    ensures Truthful(LockAfter(start, history[..i])[control], LastSaid(start, history[..j], control).value)
    decreases j
  {
    if i < j {
      LastSaidFollows(start, history, control, i, j - 1);
      assert history[..j][..j - 1] == history[..j - 1];
      assert !Contradicts(start, history[..j - 1], history[j - 1], control);
    }
  }

  lemma {:induction false} LastSaidWasSaid(start: Entries, history: seq<Entries>, control: string) returns (i: nat)
    requires LastSaid(start, history, control).Some?
    ensures i <= |history| && control in LockAfter(start, history[..i])
    ensures LockAfter(start, history[..i])[control] == LastSaid(start, history, control).value
  {
    if control in LockAfter(start, history) {
      i := |history|;
      assert history[..i] == history;
    } else {
      i := LastSaidWasSaid(start, history[..|history| - 1], control);
      assert history[..|history| - 1][..i] == history[..i];
    }
  }

  /** Over every history of edits and re-locks, through any number of removals and returns: the
      recorded version of a control never decreases and one version stands for one content exactly
      when no accepted re-lock took it back with what contradicts the last that was recorded of it. */
  lemma OneContentIff(start: Entries, history: seq<Entries>, control: string)
    ensures (forall i: nat, j: nat :: i <= j <= |history| ==> Agree(start, history, control, i, j))
            <==> NeverContradicted(start, history, control)
  {
    if NeverContradicted(start, history, control) {
      forall i: nat, j: nat | i <= j <= |history|
        ensures Agree(start, history, control, i, j)
      {
        if control in LockAfter(start, history[..i]) {
          LastSaidFollows(start, history, control, i, j);
        }
      }
    } else {
      var k: nat :| k < |history| && Contradicts(start, history[..k], history[k], control);
      var i := LastSaidWasSaid(start, history[..k], control);
      assert history[..k][..i] == history[..i];
      assert history[..k + 1][..k] == history[..k];
      assert !Agree(start, history, control, i, k + 1);
    }
  }

  /** Whenever an accepted re-lock drops a control, whatever else is recorded, the control may come back under its old
      version with any content: one version, two contents. */
  lemma DroppedControlEscapes(locked: Entries, current: Entries, control: string, digest: string)
    requires control in locked && AllTruthful(locked, current) && control !in current
    requires digest != locked[control].digest
    ensures var back := current[control := Entry(locked[control].version, digest)];
            LockAfter(locked, [current, back]) == back && !Truthful(locked[control], back[control])
  {
    var back := current[control := Entry(locked[control].version, digest)];
    assert [current, back][..1] == [current] && [current][..0] == [];
    assert LockAfter(locked, [current]) == current;
    assert AllTruthful(current, back);
  }
}
