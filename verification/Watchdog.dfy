/** The server watchdog: which checks to mail about, and what the mails of one check look like over time. */
module Watchdog {
  import opened Options

  datatype CheckResult = CheckResult(key: string, ok: bool, confirmRuns: int)

  /** What is remembered of a check that fails, or recovered without its all-clear having been sent. */
  datatype Entry = Entry(fails: nat, since: real, alertedAt: Option<real>)

  type State = map<string, Entry>

  datatype Decision = Decision(alerts: seq<CheckResult>, recovered: seq<CheckResult>, state: State)

  function Lookup(state: State, key: string): Option<Entry> {
    if key in state then Some(state[key]) else None
  }

  predicate Alerted(prev: Option<Entry>) {
    prev.Some? && prev.value.alertedAt.Some? && prev.value.alertedAt.value != 0.0
  }

  function Failing(prev: Option<Entry>, now: real): Entry {
    match prev
    case None => Entry(1, now, None)
    case Some(e) => Entry(e.fails + 1, e.since, e.alertedAt)
  }

  predicate Due(entry: Entry, confirmRuns: int, now: real, repeatSeconds: real) {
    entry.fails >= confirmRuns && (entry.alertedAt.None? || now - entry.alertedAt.value >= repeatSeconds)
  }

  function DecideOne(d: Decision, r: CheckResult, state: State, now: real, repeatSeconds: real): Decision {
    var prev := Lookup(state, r.key);
    if r.ok then
      if Alerted(prev) then d.(recovered := d.recovered + [r], state := d.state[r.key := prev.value]) else d
    else
      var entry := Failing(prev, now);
      d.(alerts := if Due(entry, r.confirmRuns, now, repeatSeconds) then d.alerts + [r] else d.alerts,
         state := d.state[r.key := entry])
  }

  function Decide(results: seq<CheckResult>, state: State, now: real, repeatSeconds: real): Decision {
    if results == [] then Decision([], [], map[])
    else DecideOne(Decide(results[..|results| - 1], state, now, repeatSeconds), results[|results| - 1], state, now, repeatSeconds)
  }

  method DecideLoop(results: seq<CheckResult>, state: State, now: real, repeatSeconds: real)
    returns (alerts: seq<CheckResult>, recovered: seq<CheckResult>, newState: State)
    ensures Decision(alerts, recovered, newState) == Decide(results, state, now, repeatSeconds)
  {
    alerts, recovered, newState := [], [], map[];
    for i := 0 to |results|
      invariant Decision(alerts, recovered, newState) == Decide(results[..i], state, now, repeatSeconds)
    {
      assert results[..i + 1][..i] == results[..i];
      var r := results[i];
      var prev := Lookup(state, r.key);
      if r.ok {
        if Alerted(prev) {
          recovered := recovered + [r];
          newState := newState[r.key := prev.value];
        }
        continue;
      }
      var entry := Failing(prev, now);
      if entry.fails >= r.confirmRuns {
        if entry.alertedAt.None? || now - entry.alertedAt.value >= repeatSeconds {
          alerts := alerts + [r];
        }
      }
      newState := newState[r.key := entry];
    }
    assert results[..|results|] == results;
  }

  /** Once a mail went out: the alerts are stamped, the recovered checks forgotten. */
  function Settle(state: State, alerts: seq<CheckResult>, recovered: seq<CheckResult>, now: real): State {
    (map key | key in state :: if HasKey(alerts, key) then state[key].(alertedAt := Some(now)) else state[key])
    - Keys(recovered)
  }

  predicate HasKey(results: seq<CheckResult>, key: string) {
    exists i :: 0 <= i < |results| && results[i].key == key
  }

  function Keys(results: seq<CheckResult>): set<string> {
    set r | r in results :: r.key
  }

  method SettleLoop(state: State, alerts: seq<CheckResult>, recovered: seq<CheckResult>, now: real, sent: bool)
    returns (settled: State)
    requires forall r :: r in alerts ==> r.key in state
    ensures settled == if sent then Settle(state, alerts, recovered, now) else state
  {
    settled := state;
    if sent {
      for i := 0 to |alerts|
        invariant settled.Keys == state.Keys
        invariant forall key :: key in state ==>
                    settled[key] == if HasKey(alerts[..i], key) then state[key].(alertedAt := Some(now)) else state[key]
      {
        var key := alerts[i].key;
        HasKeySnoc(alerts, i);
        settled := settled[key := settled[key].(alertedAt := Some(now))];
      }
      assert alerts[..|alerts|] == alerts;
      ghost var stamped := settled;
      for i := 0 to |recovered|
        invariant settled == stamped - Keys(recovered[..i])
      {
        assert recovered[..i + 1] == recovered[..i] + [recovered[i]];
        assert Keys(recovered[..i + 1]) == Keys(recovered[..i]) + {recovered[i].key};
        settled := settled - {recovered[i].key};
      }
      assert recovered[..|recovered|] == recovered;
    }
  }

  lemma HasKeySnoc(results: seq<CheckResult>, i: nat)
    requires i < |results|
    ensures forall key :: HasKey(results[..i + 1], key) <==> HasKey(results[..i], key) || key == results[i].key
  {
    forall key ensures HasKey(results[..i + 1], key) <==> HasKey(results[..i], key) || key == results[i].key {
      if HasKey(results[..i], key) {
        var k :| 0 <= k < i && results[..i][k].key == key;
        assert results[..i + 1][k].key == key;
      }
      if HasKey(results[..i + 1], key) && key != results[i].key {
        var k :| 0 <= k < i + 1 && results[..i + 1][k].key == key;
        assert results[..i][k].key == key;
      }
      if key == results[i].key {
        assert results[..i + 1][i].key == key;
      }
    }
  }

  // ---- one check ------------------------------------------------------------------------------------------

  datatype Kind = Alert | AllClear

  /** What one run wants to mail about a check. */
  function Wanted(prev: Option<Entry>, r: CheckResult, now: real, repeatSeconds: real): Option<Kind> {
    if r.ok then if Alerted(prev) then Some(AllClear) else None
    else if Due(Failing(prev, now), r.confirmRuns, now, repeatSeconds) then Some(Alert)
    else None
  }

  /** What a run leaves remembered of a check. */
  function After(prev: Option<Entry>, r: CheckResult, now: real, repeatSeconds: real, sent: bool): Option<Entry> {
    if r.ok then if Alerted(prev) && !sent then prev else None
    else
      var entry := Failing(prev, now);
      Some(if sent && Due(entry, r.confirmRuns, now, repeatSeconds) then entry.(alertedAt := Some(now)) else entry)
  }

  /** One whole run: decide, mail, settle.  Without anything to mail about, nothing is sent. */
  function RunOnce(results: seq<CheckResult>, state: State, now: real, repeatSeconds: real, delivered: bool): State {
    var d := Decide(results, state, now, repeatSeconds);
    if (d.alerts != [] || d.recovered != []) && delivered then Settle(d.state, d.alerts, d.recovered, now) else d.state
  }

  method RunOnceLoop(results: seq<CheckResult>, state: State, now: real, repeatSeconds: real, delivered: bool)
    returns (settled: State, mailed: bool)
    ensures settled == RunOnce(results, state, now, repeatSeconds, delivered)
    ensures var d := Decide(results, state, now, repeatSeconds); mailed <==> delivered && (d.alerts != [] || d.recovered != [])
  {
    var alerts, recovered, newState := DecideLoop(results, state, now, repeatSeconds);
    AlertsKept(results, state, now, repeatSeconds);
    mailed := (alerts != [] || recovered != []) && delivered;
    settled := SettleLoop(newState, alerts, recovered, now, mailed);
  }

  lemma {:induction false} AlertsKept(results: seq<CheckResult>, state: State, now: real, repeatSeconds: real)
    ensures var d := Decide(results, state, now, repeatSeconds); forall r :: r in d.alerts ==> r.key in d.state
  {
    hide Due;
    if results != [] {
      AlertsKept(results[..|results| - 1], state, now, repeatSeconds);
    }
  }

  predicate DistinctKeys(results: seq<CheckResult>) {
    forall i, j :: 0 <= i < j < |results| ==> results[i].key != results[j].key
  }

  /** A decision looked at for one key, which the results so far hold at most once. */
  predicate DecidedFor(d: Decision, r: CheckResult, state: State, now: real, repeatSeconds: real) {
    var wanted := Wanted(Lookup(state, r.key), r, now, repeatSeconds);
    && (HasKey(d.alerts, r.key) <==> wanted == Some(Alert))
    && (r.key in Keys(d.recovered) <==> wanted == Some(AllClear))
    && Lookup(d.state, r.key) == if r.ok && wanted.None? then None
                                 else if r.ok then Lookup(state, r.key)
                                 else Some(Failing(Lookup(state, r.key), now))
  }

  predicate Untouched(d: Decision, key: string) {
    !HasKey(d.alerts, key) && key !in Keys(d.recovered) && key !in d.state
  }

  lemma HasKeyAppend(results: seq<CheckResult>, r: CheckResult, key: string)
    ensures HasKey(results + [r], key) <==> HasKey(results, key) || r.key == key
    ensures key in Keys(results + [r]) <==> key in Keys(results) || r.key == key
  {
    HasKeySnoc(results + [r], |results|);
    assert (results + [r])[..|results|] == results;
    assert (results + [r])[..|results| + 1] == results + [r];
    assert forall q :: q in results + [r] <==> q in results || q == r;
  }

  lemma {:induction false} DecideNone(results: seq<CheckResult>, state: State, now: real, repeatSeconds: real, key: string)
    requires !HasKey(results, key)
    ensures Untouched(Decide(results, state, now, repeatSeconds), key)
  {
    hide Due;
    hide HasKey;
    if results == [] {
      NoKeys(key);
    } else {
      var front, r := results[..|results| - 1], results[|results| - 1];
      assert results == front + [r];
      HasKeyAppend(front, r, key);
      DecideNone(front, state, now, repeatSeconds, key);
      var d := Decide(front, state, now, repeatSeconds);
      HasKeyAppend(d.alerts, r, key);
      HasKeyAppend(d.recovered, r, key);
    }
  }

  lemma NoKeys(key: string)
    ensures !HasKey([], key) && key !in Keys([])
  {
  }

  lemma {:induction false} DecideKey(results: seq<CheckResult>, state: State, now: real, repeatSeconds: real, i: nat)
    requires i < |results| && DistinctKeys(results)
    ensures DecidedFor(Decide(results, state, now, repeatSeconds), results[i], state, now, repeatSeconds)
  {
    hide Due;
    hide HasKey;
    var front, last := results[..|results| - 1], results[|results| - 1];
    var d := Decide(front, state, now, repeatSeconds);
    HasKeyAppend(d.alerts, last, results[i].key);
    HasKeyAppend(d.recovered, last, results[i].key);
    if i < |front| {
      DecideKey(front, state, now, repeatSeconds, i);
    } else {
      NotBefore(results);
      DecideNone(front, state, now, repeatSeconds, last.key);
    }
  }

  lemma NotBefore(results: seq<CheckResult>)
    requires results != [] && DistinctKeys(results)
    ensures !HasKey(results[..|results| - 1], results[|results| - 1].key)
  {
  }

  /** A run treats every check on its own: what it mails about a check and what it remembers of it depend on
      that check's entry, its result and the delivery alone. */
  lemma RunOnceKey(results: seq<CheckResult>, state: State, now: real, repeatSeconds: real, delivered: bool, i: nat)
    requires i < |results| && DistinctKeys(results)
    ensures var d, r := Decide(results, state, now, repeatSeconds), results[i];
      && (HasKey(d.alerts, r.key) <==> Wanted(Lookup(state, r.key), r, now, repeatSeconds) == Some(Alert))
      && (r.key in Keys(d.recovered) <==> Wanted(Lookup(state, r.key), r, now, repeatSeconds) == Some(AllClear))
      && Lookup(RunOnce(results, state, now, repeatSeconds, delivered), r.key)
         == After(Lookup(state, r.key), r, now, repeatSeconds, delivered)
  {
    hide Due;
    DecideKey(results, state, now, repeatSeconds, i);
    var d := Decide(results, state, now, repeatSeconds);
    if d.alerts == [] && d.recovered == [] {
      NoKeys(results[i].key);
    }
  }

  // ---- one check over many runs ------------------------------------------------------------------------------

  /** One run as a check sees it: its outcome, the time, and whether a mail would get through. */
  datatype Obs = Obs(ok: bool, now: real, delivered: bool)

  datatype Mail = Mail(kind: Kind, at: real, run: nat)

  /** The entry kept and the mails delivered about a check that is part of every run. */
  function Replay(runs: seq<Obs>, confirmRuns: int, repeatSeconds: real): (Option<Entry>, seq<Mail>) {
    if runs == [] then (None, [])
    else
      var (prev, mails) := Replay(runs[..|runs| - 1], confirmRuns, repeatSeconds);
      var o := runs[|runs| - 1];
      var r := CheckResult("", o.ok, confirmRuns);
      var wanted := Wanted(prev, r, o.now, repeatSeconds);
      (After(prev, r, o.now, repeatSeconds, o.delivered),
       if o.delivered && wanted.Some? then mails + [Mail(wanted.value, o.now, |runs| - 1)] else mails)
  }

  /** The problem was reported and no all-clear sent since. */
  predicate IsOpen(mails: seq<Mail>) {
    mails != [] && mails[|mails| - 1].kind == Alert
  }

  /** How many runs in a row failed, up to the last. */
  function Streak(runs: seq<Obs>): nat {
    if runs == [] || runs[|runs| - 1].ok then 0 else Streak(runs[..|runs| - 1]) + 1
  }

  /** The mails as the outcomes of the runs call for them, with no state but the mails themselves. */
  function MailsOf(runs: seq<Obs>, confirmRuns: int, repeatSeconds: real): seq<Mail> {
    if runs == [] then []
    else
      var mails, o := MailsOf(runs[..|runs| - 1], confirmRuns, repeatSeconds), runs[|runs| - 1];
      if !o.delivered then mails
      else if o.ok then
        if IsOpen(mails) then mails + [Mail(AllClear, o.now, |runs| - 1)] else mails
      else if IsOpen(mails) then
        if o.now - mails[|mails| - 1].at >= repeatSeconds then mails + [Mail(Alert, o.now, |runs| - 1)] else mails
      else if Streak(runs) >= confirmRuns then mails + [Mail(Alert, o.now, |runs| - 1)]
      else mails
  }

  predicate Timed(runs: seq<Obs>) {
    forall i :: 0 <= i < |runs| ==> runs[i].now > 0.0
  }

  /** What the entry remembers, in terms of the mails and the runs. */
  predicate Remembers(entry: Option<Entry>, mails: seq<Mail>, runs: seq<Obs>, confirmRuns: int) {
    match entry
    case None => !IsOpen(mails) && Streak(runs) == 0
    case Some(e) =>
      match e.alertedAt
      case None => !IsOpen(mails) && e.fails == Streak(runs)
      case Some(t) => IsOpen(mails) && t == mails[|mails| - 1].at && t > 0.0 && e.fails >= confirmRuns
  }

  /** The watchdog's saved entry does its job: the mails delivered are the ones the outcomes call for. */
  lemma {:induction false} ReplayMatches(runs: seq<Obs>, confirmRuns: int, repeatSeconds: real)
    requires Timed(runs)
    ensures var (entry, mails) := Replay(runs, confirmRuns, repeatSeconds);
      mails == MailsOf(runs, confirmRuns, repeatSeconds) && Remembers(entry, mails, runs, confirmRuns)
  {
    if runs != [] {
      ReplayMatches(runs[..|runs| - 1], confirmRuns, repeatSeconds);
    }
  }

  /** When the trouble of a check began, if it is in trouble: with the first failed run after it was last fine and
      no alert was left to be answered. */
  function TroubleSince(runs: seq<Obs>, confirmRuns: int, repeatSeconds: real): Option<real> {
    if runs == [] then None
    else
      var before, o := TroubleSince(runs[..|runs| - 1], confirmRuns, repeatSeconds), runs[|runs| - 1];
      if o.ok then if IsOpen(MailsOf(runs, confirmRuns, repeatSeconds)) then before else None
      else if before.Some? then before
      else Some(o.now)
  }

  /** The start the entry shows, as the mails print it, is the start of the trouble. */
  lemma {:induction false} SinceTold(runs: seq<Obs>, confirmRuns: int, repeatSeconds: real)
    requires Timed(runs)
    ensures var entry := Replay(runs, confirmRuns, repeatSeconds).0;
      TroubleSince(runs, confirmRuns, repeatSeconds) == if entry.Some? then Some(entry.value.since) else None
  {
    if runs != [] {
      var front := runs[..|runs| - 1];
      SinceTold(front, confirmRuns, repeatSeconds);
      ReplayMatches(front, confirmRuns, repeatSeconds);
      ReplayMatches(runs, confirmRuns, repeatSeconds);
      hide MailsOf;
      ReplayStep(runs, confirmRuns, repeatSeconds);
    }
  }

  /** The last `n` runs before `end` failed. */
  predicate FailedRuns(runs: seq<Obs>, end: nat, n: int)
    requires end <= |runs|
  {
    n <= end && forall i :: 0 <= i && end - n <= i < end ==> !runs[i].ok
  }

  lemma {:induction false} StreakFailed(runs: seq<Obs>)
    ensures FailedRuns(runs, |runs|, Streak(runs))
  {
    if runs != [] && !runs[|runs| - 1].ok {
      StreakFailed(runs[..|runs| - 1]);
    }
  }

  predicate MailOk(runs: seq<Obs>, mails: seq<Mail>, i: nat, confirmRuns: int, repeatSeconds: real)
    requires i < |mails|
  {
    var m := mails[i];
    && m.run < |runs| && m.at == runs[m.run].now && runs[m.run].delivered && (i > 0 ==> mails[i - 1].run < m.run)
    && (if m.kind == AllClear then runs[m.run].ok && i > 0 && mails[i - 1].kind == Alert
        else !runs[m.run].ok
             && if i > 0 && mails[i - 1].kind == Alert then m.at - mails[i - 1].at >= repeatSeconds
                else FailedRuns(runs, m.run + 1, confirmRuns))
  }

  predicate TraceOk(runs: seq<Obs>, mails: seq<Mail>, confirmRuns: int, repeatSeconds: real) {
    forall i :: 0 <= i < |mails| ==> MailOk(runs, mails, i, confirmRuns, repeatSeconds)
  }

  /** The mails of a check follow (alert+ all-clear)*: an all-clear only ever answers an alert, alerts of one
      episode are at least the repeat time apart, and an episode's first alert comes only after the
      confirming number of runs failed in a row. */
  lemma {:induction false} MailTrace(runs: seq<Obs>, confirmRuns: int, repeatSeconds: real)
    ensures TraceOk(runs, MailsOf(runs, confirmRuns, repeatSeconds), confirmRuns, repeatSeconds)
  {
    hide MailOk;
    if runs != [] {
      var front := runs[..|runs| - 1];
      var before, mails := MailsOf(front, confirmRuns, repeatSeconds), MailsOf(runs, confirmRuns, repeatSeconds);
      MailTrace(front, confirmRuns, repeatSeconds);
      forall i | 0 <= i < |mails| ensures MailOk(runs, mails, i, confirmRuns, repeatSeconds) {
        if i < |before| {
          assert MailOk(front, before, i, confirmRuns, repeatSeconds);
          MailStays(front, runs, before, mails, i, confirmRuns, repeatSeconds);
        } else {
          NewMailOk(runs, before, mails, confirmRuns, repeatSeconds);
        }
      }
    }
  }

  lemma MailStays(front: seq<Obs>, runs: seq<Obs>, before: seq<Mail>, mails: seq<Mail>, i: nat, confirmRuns: int,
                  repeatSeconds: real)
    requires front <= runs && before <= mails && i < |before| && MailOk(front, before, i, confirmRuns, repeatSeconds)
    ensures MailOk(runs, mails, i, confirmRuns, repeatSeconds)
  {
  }

  lemma NewMailOk(runs: seq<Obs>, before: seq<Mail>, mails: seq<Mail>, confirmRuns: int, repeatSeconds: real)
    requires runs != [] && before == MailsOf(runs[..|runs| - 1], confirmRuns, repeatSeconds)
    requires mails == MailsOf(runs, confirmRuns, repeatSeconds) && |mails| > |before|
    requires TraceOk(runs[..|runs| - 1], before, confirmRuns, repeatSeconds)
    ensures |mails| == |before| + 1 && MailOk(runs, mails, |before|, confirmRuns, repeatSeconds)
  {
    StreakFailed(runs);
    assert before != [] ==> MailOk(runs[..|runs| - 1], before, |before| - 1, confirmRuns, repeatSeconds);
  }

  // ---- the whole watchdog over many runs -----------------------------------------------------------------------

  datatype Run = Run(results: seq<CheckResult>, now: real, delivered: bool)

  function StateAfter(runs: seq<Run>, repeatSeconds: real): State {
    if runs == [] then map[]
    else
      var r := runs[|runs| - 1];
      RunOnce(r.results, StateAfter(runs[..|runs| - 1], repeatSeconds), r.now, repeatSeconds, r.delivered)
  }

  function PlaceOf(results: seq<CheckResult>, key: string): (i: nat)
    requires HasKey(results, key)
    ensures i < |results| && results[i].key == key
  {
    if results[0].key == key then 0
    else
      assert HasKey(results[1..], key) by {
        var k :| 0 <= k < |results| && results[k].key == key;
        assert results[1..][k - 1].key == key;
      }
      PlaceOf(results[1..], key) + 1
  }

  /** The check is part of every run, once, with the same confirmation count. */
  predicate Checked(runs: seq<Run>, key: string, confirmRuns: int) {
    forall i :: 0 <= i < |runs| ==> CheckedIn(runs[i].results, key, confirmRuns)
  }

  predicate CheckedIn(results: seq<CheckResult>, key: string, confirmRuns: int) {
    DistinctKeys(results) && HasKey(results, key) && results[PlaceOf(results, key)].confirmRuns == confirmRuns
  }

  function Seen(runs: seq<Run>, key: string, confirmRuns: int): (seen: seq<Obs>)
    requires Checked(runs, key, confirmRuns)
    ensures |seen| == |runs|
  {
    if runs == [] then []
    else
      var r := runs[|runs| - 1];
      assert Checked(runs[..|runs| - 1], key, confirmRuns) && CheckedIn(r.results, key, confirmRuns);
      Seen(runs[..|runs| - 1], key, confirmRuns) + [Obs(r.results[PlaceOf(r.results, key)].ok, r.now, r.delivered)]
  }

  /** The mails that the runs deliver about one check: one mail goes out for all alerts and recoveries of a
      run, and is about those it lists. */
  function MailsAbout(runs: seq<Run>, key: string, repeatSeconds: real): seq<Mail> {
    if runs == [] then []
    else
      var front, r := runs[..|runs| - 1], runs[|runs| - 1];
      var d := Decide(r.results, StateAfter(front, repeatSeconds), r.now, repeatSeconds);
      var before := MailsAbout(front, key, repeatSeconds);
      if !r.delivered then before
      else if HasKey(d.alerts, key) then before + [Mail(Alert, r.now, |runs| - 1)]
      else if HasKey(d.recovered, key) then before + [Mail(AllClear, r.now, |runs| - 1)]
      else before
  }

  lemma KeysHaveKey(results: seq<CheckResult>, key: string)
    ensures key in Keys(results) <==> HasKey(results, key)
  {
    if key in Keys(results) {
      var r :| r in results && r.key == key;
      var i :| 0 <= i < |results| && results[i] == r;
    }
  }

  /** What the saved state of all checks keeps of one check, and the mails all runs deliver about it, are that
      check's own replay, whatever else is checked and mailed alongside. */
  lemma {:induction false} ChecksAreIndependent(runs: seq<Run>, key: string, confirmRuns: int, repeatSeconds: real)
    requires Checked(runs, key, confirmRuns)
    ensures var (entry, mails) := Replay(Seen(runs, key, confirmRuns), confirmRuns, repeatSeconds);
      Lookup(StateAfter(runs, repeatSeconds), key) == entry && MailsAbout(runs, key, repeatSeconds) == mails
  {
    hide RunOnce;
    hide After;
    hide Wanted;
    hide HasKey;
    if runs != [] {
      var front, r := runs[..|runs| - 1], runs[|runs| - 1];
      assert CheckedIn(r.results, key, confirmRuns);
      ChecksAreIndependent(front, key, confirmRuns, repeatSeconds);
      var i, state := PlaceOf(r.results, key), StateAfter(front, repeatSeconds);
      RunOnceKey(r.results, state, r.now, repeatSeconds, r.delivered, i);
      KeysHaveKey(Decide(r.results, state, r.now, repeatSeconds).recovered, key);
      SameCheck(Lookup(state, key), r.results[i], r.now, repeatSeconds, r.delivered);
      var seen := Seen(runs, key, confirmRuns);
      assert seen[..|seen| - 1] == Seen(front, key, confirmRuns);
      ReplayStep(seen, confirmRuns, repeatSeconds);
      MailsStep(runs, key, repeatSeconds, Wanted(Lookup(state, key), r.results[i], r.now, repeatSeconds));
    }
  }

  lemma MailsStep(runs: seq<Run>, key: string, repeatSeconds: real, wanted: Option<Kind>)
    requires runs != []
    requires var r := runs[|runs| - 1];
      var d := Decide(r.results, StateAfter(runs[..|runs| - 1], repeatSeconds), r.now, repeatSeconds);
      (HasKey(d.alerts, key) <==> wanted == Some(Alert)) && (HasKey(d.recovered, key) <==> wanted == Some(AllClear))
    ensures var r, before := runs[|runs| - 1], MailsAbout(runs[..|runs| - 1], key, repeatSeconds);
      MailsAbout(runs, key, repeatSeconds)
      == match wanted
         case None => before
         case Some(kind) => if r.delivered then before + [Mail(kind, r.now, |runs| - 1)] else before
  {
    hide HasKey;
    if wanted.Some? {
      assert wanted.value == Alert || wanted.value == AllClear;
    }
  }

  lemma ReplayStep(runs: seq<Obs>, confirmRuns: int, repeatSeconds: real)
    requires runs != []
    ensures var (prev, before) := Replay(runs[..|runs| - 1], confirmRuns, repeatSeconds);
      var o := runs[|runs| - 1];
      var r := CheckResult("", o.ok, confirmRuns);
      var (entry, mails) := Replay(runs, confirmRuns, repeatSeconds);
      && entry == After(prev, r, o.now, repeatSeconds, o.delivered)
      && mails == match Wanted(prev, r, o.now, repeatSeconds)
                  case None => before
                  case Some(kind) => if o.delivered then before + [Mail(kind, o.now, |runs| - 1)] else before
  {
  }

  /** A check's name plays no part in what a run wants to mail about it or remembers of it. */
  lemma SameCheck(prev: Option<Entry>, r: CheckResult, now: real, repeatSeconds: real, sent: bool)
    ensures var q := CheckResult("", r.ok, r.confirmRuns);
      && After(prev, r, now, repeatSeconds, sent) == After(prev, q, now, repeatSeconds, sent)
      && Wanted(prev, r, now, repeatSeconds) == Wanted(prev, q, now, repeatSeconds)
  {
  }

  predicate TimedRuns(runs: seq<Run>) {
    forall i :: 0 <= i < |runs| ==> runs[i].now > 0.0
  }

  lemma {:induction false} SeenTimed(runs: seq<Run>, key: string, confirmRuns: int)
    requires Checked(runs, key, confirmRuns) && TimedRuns(runs)
    ensures Timed(Seen(runs, key, confirmRuns))
  {
    if runs != [] {
      assert Checked(runs[..|runs| - 1], key, confirmRuns);
      SeenTimed(runs[..|runs| - 1], key, confirmRuns);
    }
  }

  /** The watchdog's mail trace.  Over any sequence of whole runs, with any other checks and any failures to
      send, the mails delivered about a check are the ones its outcomes call for, and follow
      (alert+ all-clear)*: alerts of one episode at least the repeat time apart, the first only after the
      confirming number of failed runs in a row. */
  lemma WatchdogTrace(runs: seq<Run>, key: string, confirmRuns: int, repeatSeconds: real)
    requires Checked(runs, key, confirmRuns) && TimedRuns(runs)
    ensures var seen, mails := Seen(runs, key, confirmRuns), MailsAbout(runs, key, repeatSeconds);
      mails == MailsOf(seen, confirmRuns, repeatSeconds) && TraceOk(seen, mails, confirmRuns, repeatSeconds)
  {
    hide MailOk;
    var seen := Seen(runs, key, confirmRuns);
    SeenTimed(runs, key, confirmRuns);
    ChecksAreIndependent(runs, key, confirmRuns, repeatSeconds);
    ReplayMatches(seen, confirmRuns, repeatSeconds);
    MailTrace(seen, confirmRuns, repeatSeconds);
  }
}
