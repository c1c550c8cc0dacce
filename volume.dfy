/**
 * The volume rules of the HDMI-CEC controller as functions on values: how a
 * number of volume pulses is batched (`volume_up`, `volume_down` and one
 * round of `volume_set`), and the whole bounded convergence loop of
 * `volume_set` given the answers the audio system gave.
 */
module CecVolume {
  import opened PyText
  import opened CecCodec
  import opened CecBus

  function Abs(x: int): nat
  {
    if x < 0 then -x else x
  }

  function Pulse(up: bool, release: Option<bool>): BusOp
  {
    if up then VolumeUp(release) else VolumeDown(release)
  }

  /**
   * `for i in range(count)` pulses in one direction. In a fast batch each
   * call passes the release flag `i == count - 1`; otherwise each call uses
   * the adapter's default. A negative count gives no pulses.
   */
  function Pulses(up: bool, count: int, fast: bool): (r: seq<BusOp>)
    ensures |r| == if count < 0 then 0 else count
    ensures forall k :: 0 <= k < |r| ==> StepOf(r[k]) == (if up then 1 else -1)
  {
    var n := if count < 0 then 0 else count;
    var r := seq(n, i => Pulse(up, if fast then Some(i == n - 1) else None));
    assert forall k :: 0 <= k < n ==> r[k] == Pulse(up, if fast then Some(k == n - 1) else None);
    r
  }

  lemma {:induction false} UniformTally(ops: seq<BusOp>, weight: BusOp -> int, w: int)
    requires forall k :: 0 <= k < |ops| ==> weight(ops[k]) == w
    ensures Tally(ops, weight) == |ops| * w
    decreases |ops|
  {
    if ops != [] {
      UniformTally(ops[1..], weight, w);
    }
  }

  /**
   * A batch of `count` pulses moves the volume by `count` steps in its
   * direction and transmits nothing. A fast batch passes an explicit release
   * flag on every pulse, false on all but the last and true on the last; a
   * slow batch passes none, leaving the adapter's default.
   */
  lemma PulsesMeaning(up: bool, count: int, fast: bool)
    ensures var n := if count < 0 then 0 else count;
      var ops := Pulses(up, count, fast);
      |ops| == n && PulseCount(ops) == n && TransmitCount(ops) == 0 &&
      Steps(ops) == (if up then n else -n) &&
      ReleaseCount(ops) == (if fast && n > 0 then 1 else 0) &&
      (fast && n > 0 ==> ops[n - 1] == Pulse(up, Some(true))) &&
      (forall k :: 0 <= k < n ==> (ops[k].VolumeUp? <==> up) && (ops[k].VolumeUp? || ops[k].VolumeDown?)) &&
      (forall k :: 0 <= k < n ==>
         (ops[k].VolumeUp? || ops[k].VolumeDown?) && ops[k].release == (if fast then Some(k == n - 1) else None))
  {
    var n := if count < 0 then 0 else count;
    var ops := Pulses(up, count, fast);
    assert forall k :: 0 <= k < n ==> ops[k] == Pulse(up, if fast then Some(k == n - 1) else None);
    UniformTally(ops, PulseOf, 1);
    UniformTally(ops, TransmitOf, 0);
    UniformTally(ops, StepOf, if up then 1 else -1);
    if fast && n > 0 {
      UniformTally(ops[..n - 1], ReleasedOf, 0);
      TallyAppend(ops[..n - 1], [ops[n - 1]], ReleasedOf);
      assert ops[..n - 1] + [ops[n - 1]] == ops;
    } else {
      UniformTally(ops, ReleasedOf, 0);
    }
  }

  /**
   * The pulses of one `volume_set` round that read `current` against
   * `target`: none when they agree; for a gap of 10 or more a fast batch of
   * `ceil(gap / 2)` pulses; otherwise `gap` pulses without explicit flag.
   */
  function AdjustOps(current: int, target: int): (r: seq<BusOp>)
    ensures r == [] <==> current == target
    ensures |r| <= Abs(current - target)
  {
    if current == target then []
    else
      var gap := Abs(current - target);
      if gap >= 10 then Pulses(current < target, (gap + 1) / 2, true)
      else Pulses(current < target, gap, false)
  }

  /**
   * Applied one step per pulse, a round lands exactly on the target when the
   * gap is below 10, and otherwise halves the gap (rounding down) without
   * crossing the target. Pulses go up exactly when the volume is below the
   * target. From 10 apart every pulse passes an explicit release flag, true
   * on the last only; closer, no pulse passes one.
   */
  lemma AdjustTowardTarget(current: int, target: int)
    ensures var ops := AdjustOps(current, target);
      var gap := Abs(current - target);
      var after := current + Steps(ops);
      TransmitCount(ops) == 0 &&
      PulseCount(ops) == (if gap >= 10 then (gap + 1) / 2 else gap) &&
      ReleaseCount(ops) == (if gap >= 10 then 1 else 0) &&
      (gap < 10 ==> after == target) &&
      (gap >= 10 ==> Abs(after - target) == gap / 2 && (after < target <==> current < target)) &&
      (forall k :: 0 <= k < |ops| ==> (ops[k].VolumeUp? <==> current < target) && (ops[k].VolumeUp? || ops[k].VolumeDown?)) &&
      (forall k :: 0 <= k < |ops| ==>
         (ops[k].VolumeUp? || ops[k].VolumeDown?) && ops[k].release == (if gap >= 10 then Some(k == |ops| - 1) else None))
  {
    var gap := Abs(current - target);
    if current == target {
    } else if gap >= 10 {
      PulsesMeaning(current < target, (gap + 1) / 2, true);
    } else {
      PulsesMeaning(current < target, gap, false);
    }
  }

  // ---------------------------------------------------------------------
  // volume_set

  /** The "Give Audio Status" request to the audio system that a status update sends. */
  const StatusQuery := Transmit(GiveAudioStatus, Some(AudioSystem))

  /** `volume_set` gives up after this many rounds that read a wrong volume. */
  const MaxAttempts := 10

  /**
   * What one `volume_set` run did: the bus operations in order, how many
   * answers it read (one per round) and how many rounds adjusted the volume.
   */
  datatype Convergence = Convergence(ops: seq<BusOp>, used: nat, adjustments: nat)

  /**
   * The `while attempts < 10` loop of `volume_set` from a given attempt count.
   * Every round transmits `StatusQuery`, then takes the next answer: `None` is
   * a wait that timed out (the loop retries without counting an attempt),
   * `Some(status)` is the status the adapter then returned. A matching level
   * ends the loop; otherwise the round adjusts and counts an attempt.
   * `None` as the result: the answers ran out before the loop ended.
   */
  function Converge(target: int, responses: seq<Option<int>>, attempts: nat): (r: Option<Convergence>)
    ensures r.Some? ==> r.value.used <= |responses|
    ensures r.Some? ==> r.value.adjustments <= if attempts < MaxAttempts then MaxAttempts - attempts else 0
    decreases |responses|
  {
    if attempts >= MaxAttempts then Some(Convergence([], 0, 0))
    else if responses == [] then None
    else
      var query := StatusQuery;
      match responses[0]
      case None =>
        (match Converge(target, responses[1..], attempts)
         case None => None
         case Some(rest) => Some(Convergence([query] + rest.ops, rest.used + 1, rest.adjustments)))
      case Some(status) =>
        var current := DecodeVolume(status).level;
        if current == target then Some(Convergence([query], 1, 0))
        else
          (match Converge(target, responses[1..], attempts + 1)
           case None => None
           case Some(rest) =>
             Some(Convergence([query] + AdjustOps(current, target) + rest.ops, rest.used + 1, rest.adjustments + 1)))
  }

  /** Whether a round's answer ends the run: an answer at the target level. */
  predicate RoundEnds(target: int, response: Option<int>)
  {
    response.Some? && DecodeVolume(response.value).level == target
  }

  /** The attempts used up after a round: an answer off the target uses one, a timeout none. */
  function AttemptsAfter(target: int, response: Option<int>, attempts: nat): nat
  {
    if response.Some? && !RoundEnds(target, response) then attempts + 1 else attempts
  }

  /** The operations of one round: the request, then the adjustment when the answer is off the target. */
  function RoundOpsOf(target: int, response: Option<int>): seq<BusOp>
  {
    [StatusQuery] +
      (if response.Some? && !RoundEnds(target, response) then AdjustOps(DecodeVolume(response.value).level, target)
       else [])
  }

  /**
   * One round of a run that ends: it reads the next answer and sends one
   * request; a timeout leaves the round count as it is, a matching level
   * ends the run, and any other level adjusts once and uses up the round.
   * The run is that round's operations followed by the run from the next
   * answer on.
   */
  lemma ConvergeRound(target: int, responses: seq<Option<int>>, attempts: nat)
    requires attempts < MaxAttempts
    requires Converge(target, responses, attempts).Some?
    ensures responses != []
    ensures var ops := Converge(target, responses, attempts).value.ops;
      var rest := Converge(target, responses[1..], AttemptsAfter(target, responses[0], attempts));
      if RoundEnds(target, responses[0]) then ops == RoundOpsOf(target, responses[0])
      else rest.Some? && ops == RoundOpsOf(target, responses[0]) + rest.value.ops
  {
    assert responses != [];
    if responses[0].None? {
      TimeoutRound(target, responses, attempts);
      assert RoundOpsOf(target, responses[0]) == [StatusQuery];
    } else if RoundEnds(target, responses[0]) {
      MatchingRound(target, responses, attempts);
      assert RoundOpsOf(target, responses[0]) == [StatusQuery];
    } else {
      AdjustRound(target, responses, attempts);
    }
  }

  /** The round of a run that starts with a timeout: one request, then the rest of the run. */
  lemma TimeoutRound(target: int, responses: seq<Option<int>>, attempts: nat)
    requires attempts < MaxAttempts && responses != [] && responses[0].None?
    requires Converge(target, responses, attempts).Some?
    ensures Converge(target, responses[1..], attempts).Some?
    ensures Converge(target, responses, attempts).value.ops ==
      [StatusQuery] + Converge(target, responses[1..], attempts).value.ops
  {
  }

  /** The round of a run that starts with the target level: one request, and the run ends. */
  lemma MatchingRound(target: int, responses: seq<Option<int>>, attempts: nat)
    requires attempts < MaxAttempts && responses != [] && responses[0].Some?
    requires DecodeVolume(responses[0].value).level == target
    ensures Converge(target, responses, attempts) == Some(Convergence([StatusQuery], 1, 0))
  {
  }

  /** The round of a run that starts with another level: one request, one adjustment, then the rest. */
  lemma AdjustRound(target: int, responses: seq<Option<int>>, attempts: nat)
    requires attempts < MaxAttempts && responses != [] && responses[0].Some?
    requires DecodeVolume(responses[0].value).level != target
    requires Converge(target, responses, attempts).Some?
    ensures Converge(target, responses[1..], attempts + 1).Some?
    ensures Converge(target, responses, attempts).value.ops ==
      [StatusQuery] + AdjustOps(DecodeVolume(responses[0].value).level, target) +
      Converge(target, responses[1..], attempts + 1).value.ops
  {
  }

  /**
   * A run adjusts at most 10 times in all, reads no more answers than it was
   * given, and transmits exactly one request per answer it reads; the first
   * operation of a run that has rounds left is that request.
   */
  lemma {:induction false} ConvergeShape(target: int, responses: seq<Option<int>>, attempts: nat)
    requires attempts <= MaxAttempts
    requires Converge(target, responses, attempts).Some?
    ensures var c := Converge(target, responses, attempts).value;
      c.adjustments <= MaxAttempts - attempts && c.used <= |responses| &&
      TransmitCount(c.ops) == c.used &&
      (attempts < MaxAttempts ==> c.used >= 1 && c.ops[0] == StatusQuery)
    decreases |responses|
  {
    if attempts < MaxAttempts {
      var query := StatusQuery;
      var c := Converge(target, responses, attempts).value;
      match responses[0]
      case None =>
        ConvergeShape(target, responses[1..], attempts);
        var rest := Converge(target, responses[1..], attempts).value;
        TallyAppend([query], rest.ops, TransmitOf);
      case Some(status) =>
        var current := DecodeVolume(status).level;
        if current != target {
          ConvergeShape(target, responses[1..], attempts + 1);
          var rest := Converge(target, responses[1..], attempts + 1).value;
          AdjustTowardTarget(current, target);
          TallyAppend([query] + AdjustOps(current, target), rest.ops, TransmitOf);
          TallyAppend([query], AdjustOps(current, target), TransmitOf);
        } else {
          assert c.ops == [query] && [query][1..] == [];
          assert Tally([query], TransmitOf) == TransmitOf(query) + Tally([], TransmitOf);
        }
    }
  }

  /**
   * Without any answer the loop never ends: timeouts do not count as
   * attempts, so however many timeouts arrive, the run stays unfinished.
   */
  lemma {:induction false} NoAnswerNoExit(target: int, responses: seq<Option<int>>, attempts: nat)
    requires attempts < MaxAttempts
    requires forall k :: 0 <= k < |responses| ==> responses[k].None?
    ensures Converge(target, responses, attempts).None?
    decreases |responses|
  {
    if responses != [] {
      NoAnswerNoExit(target, responses[1..], attempts);
    }
  }

  /** The answers that arrived, in order (`wait` returned true). */
  function Answers(responses: seq<Option<int>>): (r: seq<Option<int>>)
    ensures forall k :: 0 <= k < |r| ==> r[k].Some?
    ensures |r| <= |responses|
  {
    if responses == [] then []
    else (if responses[0].Some? then [responses[0]] else []) + Answers(responses[1..])
  }

  /** The operations other than transmits: the volume pulses. */
  function WithoutQueries(ops: seq<BusOp>): seq<BusOp>
  {
    if ops == [] then [] else (if ops[0].Transmit? then [] else [ops[0]]) + WithoutQueries(ops[1..])
  }

  lemma {:induction false} WithoutQueriesAppend(a: seq<BusOp>, b: seq<BusOp>)
    ensures WithoutQueries(a + b) == WithoutQueries(a) + WithoutQueries(b)
    decreases |a|
  {
    if a == [] {
      assert a + b == b;
    } else {
      WithoutQueriesAppend(a[1..], b);
      assert (a + b)[1..] == a[1..] + b;
    }
  }

  lemma {:induction false} NoQueriesInAdjust(current: int, target: int)
    ensures WithoutQueries(AdjustOps(current, target)) == AdjustOps(current, target)
  {
    var ops := AdjustOps(current, target);
    AdjustTowardTarget(current, target);
    PulsesOnly(ops);
  }

  lemma {:induction false} PulsesOnly(ops: seq<BusOp>)
    requires forall k :: 0 <= k < |ops| ==> !ops[k].Transmit?
    ensures WithoutQueries(ops) == ops
    decreases |ops|
  {
    if ops != [] {
      PulsesOnly(ops[1..]);
      assert [ops[0]] + ops[1..] == ops;
    }
  }

  /** A timeout adds one query in front of the rest of the run and changes nothing else. */
  lemma SkipTimeout(target: int, responses: seq<Option<int>>, attempts: nat)
    requires attempts < MaxAttempts && responses != [] && responses[0].None?
    ensures Answers(responses) == Answers(responses[1..])
    ensures var full := Converge(target, responses, attempts);
      var rest := Converge(target, responses[1..], attempts);
      full.Some? == rest.Some? &&
      (full.Some? ==>
         full.value.adjustments == rest.value.adjustments &&
         WithoutQueries(full.value.ops) == WithoutQueries(rest.value.ops))
  {
    var rest := Converge(target, responses[1..], attempts);
    if rest.Some? {
      WithoutQueriesAppend([StatusQuery], rest.value.ops);
    }
  }

  /** An answer at the head stays at the head once the timeouts are taken out. */
  lemma AnsweredHead(responses: seq<Option<int>>)
    requires responses != [] && responses[0].Some?
    ensures var answers := Answers(responses);
      answers != [] && answers[0] == responses[0] && answers[1..] == Answers(responses[1..])
  {
    assert Answers(responses) == [responses[0]] + Answers(responses[1..]);
  }

  /** A round that reads a wrong level uses one answer and one attempt, and adjusts once. */
  lemma AdjustingCounts(target: int, responses: seq<Option<int>>, attempts: nat)
    requires attempts < MaxAttempts && responses != [] && responses[0].Some?
    requires DecodeVolume(responses[0].value).level != target
    ensures var full := Converge(target, responses, attempts);
      var rest := Converge(target, responses[1..], attempts + 1);
      full.Some? == rest.Some? &&
      (full.Some? ==>
         full.value.adjustments == rest.value.adjustments + 1 &&
         full.value.used == rest.value.used + 1)
  {
  }

  /** A round that reads a wrong level: its query, its pulses, then the rest of the run. */
  lemma AdjustingUnfold(target: int, responses: seq<Option<int>>, attempts: nat)
    requires attempts < MaxAttempts && responses != [] && responses[0].Some?
    requires DecodeVolume(responses[0].value).level != target
    ensures var full := Converge(target, responses, attempts);
      var rest := Converge(target, responses[1..], attempts + 1);
      full.Some? == rest.Some? &&
      (full.Some? ==>
         full.value.ops == [StatusQuery] + AdjustOps(DecodeVolume(responses[0].value).level, target) + rest.value.ops)
  {
  }

  /** A round that reads a wrong level adds one adjustment and its pulses to the rest of the run. */
  lemma AdjustingRound(target: int, responses: seq<Option<int>>, attempts: nat)
    requires attempts < MaxAttempts && responses != [] && responses[0].Some?
    requires DecodeVolume(responses[0].value).level != target
    ensures var full := Converge(target, responses, attempts);
      var rest := Converge(target, responses[1..], attempts + 1);
      full.Some? == rest.Some? &&
      (full.Some? ==>
         full.value.adjustments == rest.value.adjustments + 1 &&
         WithoutQueries(full.value.ops) ==
           WithoutQueries(AdjustOps(DecodeVolume(responses[0].value).level, target)) + WithoutQueries(rest.value.ops))
  {
    AdjustingCounts(target, responses, attempts);
    AdjustingUnfold(target, responses, attempts);
    var adjust := AdjustOps(DecodeVolume(responses[0].value).level, target);
    var rest := Converge(target, responses[1..], attempts + 1);
    if rest.Some? {
      QueryThenPulses(adjust, rest.value.ops);
    }
  }

  /** The pulses of a round and of the rest of the run, without the round's query. */
  lemma QueryThenPulses(adjust: seq<BusOp>, rest: seq<BusOp>)
    ensures WithoutQueries([StatusQuery] + adjust + rest) == WithoutQueries(adjust) + WithoutQueries(rest)
  {
    var tail := adjust + rest;
    assert [StatusQuery] + adjust + rest == [StatusQuery] + tail;
    assert ([StatusQuery] + tail)[1..] == tail;
    WithoutQueriesAppend(adjust, rest);
  }

  /**
   * Timeouts only add queries: with the timeouts taken out of the answers,
   * the run ends in the same way, adjusts as often and sends the same pulses
   * in the same order.
   */
  lemma {:induction false} TimeoutsOnlyAddQueries(target: int, responses: seq<Option<int>>, attempts: nat)
    ensures var full := Converge(target, responses, attempts);
      var answered := Converge(target, Answers(responses), attempts);
      full.Some? == answered.Some? &&
      (full.Some? ==>
         full.value.adjustments == answered.value.adjustments &&
         WithoutQueries(full.value.ops) == WithoutQueries(answered.value.ops))
    decreases |responses|
  {
    if attempts < MaxAttempts && responses != [] {
      if responses[0].None? {
        SkipTimeout(target, responses, attempts);
        TimeoutsOnlyAddQueries(target, responses[1..], attempts);
      } else {
        var answers := Answers(responses);
        AnsweredHead(responses);
        if DecodeVolume(responses[0].value).level != target {
          TimeoutsOnlyAddQueries(target, responses[1..], attempts + 1);
          AdjustingRound(target, responses, attempts);
          AdjustingRound(target, answers, attempts);
        } else {
          MatchingRound(target, responses, attempts);
          MatchingRound(target, answers, attempts);
        }
      }
    }
  }

  // ---------------------------------------------------------------------
  // An amplifier that applies every pulse

  /** Rounds that adjust, from a gap, when every pulse moves the volume one step. */
  function Halvings(gap: nat): nat
  {
    if gap == 0 then 0 else if gap < 10 then 1 else 1 + Halvings(gap / 2)
  }

  /**
   * Where a round of `volume_set` leaves an amplifier that moves one step
   * per pulse (`AppliedRound`): on the target when the gap is below 10,
   * otherwise half the gap, rounded up, closer to it.
   */
  function NextLevel(level: int, target: int): int
  {
    var gap := Abs(level - target);
    if gap < 10 then target
    else if level < target then level + (gap + 1) / 2
    else level - (gap + 1) / 2
  }

  lemma AppliedRound(level: int, target: int)
    ensures NextLevel(level, target) == level + Steps(AdjustOps(level, target))
  {
    AdjustTowardTarget(level, target);
  }

  /**
   * The answers of an amplifier that is always heard, keeps its mute state
   * and moves one step per pulse: the level it reports first, and after each
   * round, until it reports the target.
   */
  function IdealAnswers(level: int, target: int, mute: bool): (r: seq<Option<int>>)
    requires 0 <= level <= 127 && 0 <= target <= 127
    ensures |r| == Halvings(Abs(level - target)) + 1
    ensures forall k :: 0 <= k < |r| ==> r[k].Some?
    decreases Abs(level - target)
  {
    var answer := Some(EncodeVolume(VolumeState(mute, level)));
    if level == target then [answer]
    else [answer] + IdealAnswers(NextLevel(level, target), target, mute)
  }

  /**
   * Against such an amplifier `volume_set` reaches the target: the run ends
   * on a matching answer after exactly `Halvings(gap)` adjusting rounds,
   * provided those fit in the attempts that are left.
   */
  lemma {:induction false} IdealRunConverges(level: int, target: int, mute: bool, attempts: nat)
    requires 0 <= level <= 127 && 0 <= target <= 127
    requires attempts + Halvings(Abs(level - target)) < MaxAttempts
    ensures var c := Converge(target, IdealAnswers(level, target, mute), attempts);
      c.Some? && c.value.adjustments == Halvings(Abs(level - target)) &&
      c.value.used == |IdealAnswers(level, target, mute)|
    decreases Abs(level - target)
  {
    var answers := IdealAnswers(level, target, mute);
    IdealStep(level, target, mute);
    if level != target {
      IdealRunConverges(NextLevel(level, target), target, mute, attempts + 1);
      AdjustingCounts(target, answers, attempts);
    } else {
      MatchingRound(target, answers, attempts);
    }
  }

  /** Such an amplifier answers with its level, then follows one round's pulses. */
  lemma IdealStep(level: int, target: int, mute: bool)
    requires 0 <= level <= 127 && 0 <= target <= 127
    ensures var answers := IdealAnswers(level, target, mute);
      DecodeVolume(answers[0].value).level == level &&
      (level != target ==>
         var next := NextLevel(level, target);
         0 <= next <= 127 && Abs(next - target) < Abs(level - target) &&
         Halvings(Abs(level - target)) == 1 + Halvings(Abs(next - target)) &&
         answers[1..] == IdealAnswers(next, target, mute))
  {
    DecodeEncode(VolumeState(mute, level));
  }

  /** Every gap up to 127 takes at most 5 adjusting rounds (127, 63, 31, 15, 7, 0). */
  lemma {:induction false} HalvingsBound(gap: nat, k: nat)
    requires gap < 10 * Power2(k)
    ensures Halvings(gap) <= k + 1
  {
    if gap >= 10 {
      assert k > 0;
      HalvingsBound(gap / 2, k - 1);
    }
  }

  function Power2(k: nat): nat
  {
    if k == 0 then 1 else 2 * Power2(k - 1)
  }

  /**
   * From any level the audio status can report to any target the bridge
   * accepts, an amplifier that applies every pulse is brought to the target
   * within 5 adjusting rounds, well inside the 10 attempts.
   */
  lemma IdealConvergenceWithinFiveRounds(level: int, target: int, mute: bool)
    requires 0 <= level <= 127 && 0 <= target <= 100
    ensures var c := Converge(target, IdealAnswers(level, target, mute), 0);
      c.Some? && c.value.adjustments <= 5
  {
    assert Power2(4) == 16;
    HalvingsBound(Abs(level - target), 4);
    IdealRunConverges(level, target, mute, 0);
  }
}
