/** Concurrent image uploads: lock, check, charge if absent, insert, commit. */
module Uploads {
  // ----- the lock key -----

  const KEY_DIGITS := 15

  predicate IsHexDigit(c: char) {
    '0' <= c <= '9' || 'a' <= c <= 'f'
  }

  predicate IsHex(s: string) {
    forall i :: 0 <= i < |s| ==> IsHexDigit(s[i])
  }

  /** A SHA-256 hex digest. */
  type Sha = s: string | |s| == 64 && IsHex(s) witness seq(64, _ => '0')

  function Digit(c: char): (d: nat)
    requires IsHexDigit(c)
    ensures d < 16
  {
    if '0' <= c <= '9' then c as int - '0' as int else c as int - 'a' as int + 10
  }

  function HexValue(s: string): (v: nat)
    requires IsHex(s)
  {
    if s == "" then 0 else HexValue(s[..|s| - 1]) * 16 + Digit(s[|s| - 1])
  }

  function Power16(n: nat): nat {
    if n == 0 then 1 else 16 * Power16(n - 1)
  }

  function AdvisoryKey(sha: Sha): nat {
    HexValue(sha[..KEY_DIGITS])
  }

  lemma {:induction false} HexValueBelow(s: string)
    requires IsHex(s)
    ensures HexValue(s) < Power16(|s|)
  {
    if s != "" {
      HexValueBelow(s[..|s| - 1]);
    }
  }

  lemma {:induction false} HexValueInjective(s: string, t: string)
    requires IsHex(s) && IsHex(t) && |s| == |t| && HexValue(s) == HexValue(t)
    ensures s == t
  {
    if s != "" {
      var n := |s| - 1;
      assert Digit(s[n]) == Digit(t[n]) ==> s[n] == t[n];
      HexValueInjective(s[..n], t[..n]);
      assert s == s[..n] + [s[n]] && t == t[..n] + [t[n]];
    }
  }

  /** The values of digit strings of one length are ordered as the strings are, most significant digit
      first. */
  lemma {:induction false} HexValueOrdered(s: string, t: string, i: nat)
    requires IsHex(s) && IsHex(t) && i < |s| == |t| && s[..i] == t[..i] && s[i] < t[i]
    ensures HexValue(s) < HexValue(t)
  {
    var n := |s| - 1;
    assert s[..n][..i] == s[..i] && t[..n][..i] == t[..i];
    if i < n {
      HexValueOrdered(s[..n], t[..n], i);
    }
  }

  /** A key fits the positive range of a 64-bit integer, and two digests share a key just when they
      share their first fifteen digits. */
  lemma KeysAreTruncations(a: Sha, b: Sha)
    ensures AdvisoryKey(a) < 0x1000_0000_0000_0000
    ensures AdvisoryKey(a) == AdvisoryKey(b) <==> a[..KEY_DIGITS] == b[..KEY_DIGITS]
  {
    HexValueBelow(a[..KEY_DIGITS]);
    assert Power16(15) == 0x1000_0000_0000_0000 by {
      assert Power16(5) == 0x10_0000;
      assert Power16(10) == 0x100_0000_0000;
    }
    if AdvisoryKey(a) == AdvisoryKey(b) {
      HexValueInjective(a[..KEY_DIGITS], b[..KEY_DIGITS]);
    }
  }

  // ----- the transactions -----

  datatype Phase = Arrived | Locked | Checked | Paid | Inserted | Finished

  /** `isNew` is the outcome of the check, `paid` whether the uploader was charged. */
  datatype Tx = Tx(user: nat, sha: Sha, phase: Phase, isNew: bool, paid: bool)

  /** A committed upload row, with the charge committed along with it. */
  datatype Receipt = Receipt(user: nat, sha: Sha, charged: bool)

  /** `holders` are the advisory locks held; `rows` what has been committed, in commit order. */
  datatype State = State(txs: seq<Tx>, holders: map<nat, nat>, rows: seq<Receipt>)

  datatype Event =
    | Arrive(user: nat, sha: Sha)
    | Lock(i: nat)
    | Check(i: nat)
    | Pay(i: nat)
    | Insert(i: nat)
    | Commit(i: nat)
    | Abort(i: nat)

  const START := State([], map[], [])

  predicate Stored(rows: seq<Receipt>, sha: Sha) {
    exists k :: 0 <= k < |rows| && rows[k].sha == sha
  }

  predicate Holds(t: Tx) {
    t.phase == Locked || t.phase == Checked || t.phase == Paid || t.phase == Inserted
  }

  /** What may happen next; `locking` says whether uploads wait for the advisory lock. Failing, for
      lack of coins or anything else, is possible at any time. */
  predicate Enabled(s: State, e: Event, locking: bool) {
    match e
    case Arrive(_, _) => true
    case Lock(i) => i < |s.txs| && s.txs[i].phase == Arrived
                    && (locking ==> AdvisoryKey(s.txs[i].sha) !in s.holders)
    case Check(i) => i < |s.txs| && s.txs[i].phase == Locked
    case Pay(i) => i < |s.txs| && s.txs[i].phase == Checked && s.txs[i].isNew
    case Insert(i) => i < |s.txs| && (s.txs[i].phase == Paid || (s.txs[i].phase == Checked && !s.txs[i].isNew))
    case Commit(i) => i < |s.txs| && s.txs[i].phase == Inserted
    case Abort(i) => i < |s.txs| && s.txs[i].phase != Finished
  }

  /** The end of a transaction releases its lock. */
  function Release(holders: map<nat, nat>, i: nat): map<nat, nat> {
    map k | k in holders && holders[k] != i :: holders[k]
  }

  function Step(s: State, e: Event, locking: bool): State
    requires Enabled(s, e, locking)
  {
    match e
    case Arrive(user, sha) => s.(txs := s.txs + [Tx(user, sha, Arrived, false, false)])
    case Lock(i) =>
      s.(txs := s.txs[i := s.txs[i].(phase := Locked)], holders := s.holders[AdvisoryKey(s.txs[i].sha) := i])
    case Check(i) =>
      s.(txs := s.txs[i := s.txs[i].(phase := Checked, isNew := !Stored(s.rows, s.txs[i].sha))])
    case Pay(i) => s.(txs := s.txs[i := s.txs[i].(phase := Paid, paid := true)])
    case Insert(i) => s.(txs := s.txs[i := s.txs[i].(phase := Inserted)])
    case Commit(i) =>
      State(s.txs[i := s.txs[i].(phase := Finished)], Release(s.holders, i),
            s.rows + [Receipt(s.txs[i].user, s.txs[i].sha, s.txs[i].paid)])
    case Abort(i) => s.(txs := s.txs[i := s.txs[i].(phase := Finished)], holders := Release(s.holders, i))
  }

  ghost predicate Possible(log: seq<Event>, locking: bool)
    decreases |log|, 0
  {
    log == [] ||
    (Possible(log[..|log| - 1], locking) && Enabled(Run(log[..|log| - 1], locking), log[|log| - 1], locking))
  }

  ghost function Run(log: seq<Event>, locking: bool): State
    requires Possible(log, locking)
    decreases |log|, 1
  {
    if log == [] then START else Step(Run(log[..|log| - 1], locking), log[|log| - 1], locking)
  }

  // ----- what the lock keeps -----

  /** Whoever is past the lock holds it; whoever has checked is still right about it. */
  ghost predicate TxOrderly(s: State, i: nat)
    requires i < |s.txs|
  {
    var t := s.txs[i];
    && (Holds(t) ==> AdvisoryKey(t.sha) in s.holders && s.holders[AdvisoryKey(t.sha)] == i)
    && (t.phase == Checked || t.phase == Paid || t.phase == Inserted ==> t.isNew == !Stored(s.rows, t.sha))
    && (t.phase == Paid || t.phase == Inserted ==> t.paid == t.isNew)
    && (t.phase == Arrived || t.phase == Locked || t.phase == Checked ==> !t.paid)
  }

  /** Every lock is held by a running transaction with its key. */
  ghost predicate Orderly(s: State) {
    && (forall i :: 0 <= i < |s.txs| ==> TxOrderly(s, i))
    && (forall k :: k in s.holders ==>
          s.holders[k] < |s.txs| && Holds(s.txs[s.holders[k]]) && AdvisoryKey(s.txs[s.holders[k]].sha) == k)
  }

  lemma OrderlyStep(s: State, e: Event)
    requires Orderly(s) && Enabled(s, e, true)
    ensures Orderly(Step(s, e, true))
  {
    var s' := Step(s, e, true);
    forall i | 0 <= i < |s'.txs|
      ensures TxOrderly(s', i)
    {
      assert i < |s.txs| ==> TxOrderly(s, i);
      if e.Commit? && i != e.i {
        assert TxOrderly(s, e.i);
        StoredAfter(s.rows, s'.rows[|s.rows|], s.txs[i].sha);
      }
    }
  }

  lemma StoredAfter(rows: seq<Receipt>, r: Receipt, sha: Sha)
    ensures Stored(rows + [r], sha) <==> Stored(rows, sha) || r.sha == sha
  {
    var longer := rows + [r];
    if k :| 0 <= k < |rows| && rows[k].sha == sha {
      assert longer[k].sha == sha;
    }
    assert longer[|rows|] == r;
  }

  lemma {:induction false} OrderlyRun(log: seq<Event>)
    requires Possible(log, true)
    ensures Orderly(Run(log, true))
  {
    if log != [] {
      OrderlyRun(log[..|log| - 1]);
      OrderlyStep(Run(log[..|log| - 1], true), log[|log| - 1]);
    }
  }

  /** An upload that runs without anyone else: charged exactly when its bytes are not there yet. */
  function AtomicUpload(rows: seq<Receipt>, user: nat, sha: Sha): seq<Receipt> {
    rows + [Receipt(user, sha, !Stored(rows, sha))]
  }

  /** Any interleaving behaves as if each upload happened at once, at its commit. */
  lemma UploadsAreAtomic(log: seq<Event>, e: Event)
    requires Possible(log + [e], true)
    ensures Possible(log, true)
    ensures var s, s' := Run(log, true), Run(log + [e], true);
      s'.rows == if e.Commit? && e.i < |s.txs| then AtomicUpload(s.rows, s.txs[e.i].user, s.txs[e.i].sha) else s.rows
  {
    assert (log + [e])[..|log|] == log;
    OrderlyRun(log);
    if e.Commit? {
      assert TxOrderly(Run(log, true), e.i);
    }
  }

  /** The uploads that arrived, in order. */
  function Arrivals(log: seq<Event>): seq<(nat, Sha)> {
    if log == [] then [] else
      var e := log[|log| - 1];
      Arrivals(log[..|log| - 1]) + if e.Arrive? then [(e.user, e.sha)] else []
  }

  lemma {:induction false} AsManyAsArrived(log: seq<Event>, locking: bool)
    requires Possible(log, locking)
    ensures |Arrivals(log)| == |Run(log, locking).txs|
  {
    if log != [] {
      AsManyAsArrived(log[..|log| - 1], locking);
    }
  }

  /** Each upload runs for the user and the bytes it arrived with. */
  lemma {:induction false} UploadsAsArrived(log: seq<Event>, locking: bool, i: nat)
    requires Possible(log, locking) && i < |Run(log, locking).txs| && i < |Arrivals(log)|
    ensures Arrivals(log)[i] == (Run(log, locking).txs[i].user, Run(log, locking).txs[i].sha)
  {
    var front := log[..|log| - 1];
    AsManyAsArrived(front, locking);
    if i < |Arrivals(front)| {
      UploadsAsArrived(front, locking, i);
    }
  }

  function Charges(rows: seq<Receipt>, sha: Sha): nat {
    if rows == [] then 0 else
      Charges(rows[..|rows| - 1], sha)
      + (if rows[|rows| - 1].sha == sha && rows[|rows| - 1].charged then 1 else 0)
  }

  /** Whatever the interleaving, each distinct stored image has been charged for exactly once. */
  lemma {:induction false} ChargedExactlyOnce(log: seq<Event>, sha: Sha)
    requires Possible(log, true)
    ensures Charges(Run(log, true).rows, sha) == if Stored(Run(log, true).rows, sha) then 1 else 0
  {
    if log != [] {
      var front, e := log[..|log| - 1], log[|log| - 1];
      assert log == front + [e];
      ChargedExactlyOnce(front, sha);
      UploadsAreAtomic(front, e);
      var rows, rows' := Run(front, true).rows, Run(log, true).rows;
      if rows' != rows {
        StoredAfter(rows, rows'[|rows|], sha);
        assert rows'[..|rows|] == rows;
      }
    }
  }

  // ----- what the lock costs -----

  /** The steps a transaction still has before it. */
  function StepsLeft(t: Tx): nat {
    match t.phase
    case Arrived => 5
    case Locked => 4
    case Checked => 3
    case Paid => 2
    case Inserted => 1
    case Finished => 0
  }

  function Work(txs: seq<Tx>): nat {
    if txs == [] then 0 else Work(txs[..|txs| - 1]) + StepsLeft(txs[|txs| - 1])
  }

  lemma {:induction false} WorkUpdate(txs: seq<Tx>, i: nat, t: Tx)
    requires i < |txs|
    ensures Work(txs[i := t]) == Work(txs) - StepsLeft(txs[i]) + StepsLeft(t)
  {
    var n := |txs| - 1;
    if i == n {
      assert txs[i := t][..n] == txs[..n];
    } else {
      WorkUpdate(txs[..n], i, t);
      assert txs[i := t][..n] == txs[..n][i := t];
    }
  }

  /** Every step but an arrival leaves less to do. */
  lemma StepsMakeProgress(s: State, e: Event, locking: bool)
    requires Enabled(s, e, locking) && !e.Arrive?
    ensures Work(Step(s, e, locking).txs) < Work(s.txs)
  {
    WorkUpdate(s.txs, e.i, Step(s, e, locking).txs[e.i]);
  }

  /** No deadlock: while an upload is unfinished, some upload can go on without failing. One that
      waits waits for another that holds the same key. */
  lemma SomeoneCanGoOn(log: seq<Event>, i: nat)
    requires Possible(log, true) && i < |Run(log, true).txs| && Run(log, true).txs[i].phase != Finished
    ensures exists e :: Enabled(Run(log, true), e, true) && !e.Arrive? && !e.Abort?
  {
    var s := Run(log, true);
    OrderlyRun(log);
    var key := AdvisoryKey(s.txs[i].sha);
    if s.txs[i].phase == Arrived && key !in s.holders {
      assert Enabled(s, Lock(i), true);
    } else {
      var j := if s.txs[i].phase == Arrived then s.holders[key] else i;
      var phase := s.txs[j].phase;
      assert TxOrderly(s, j) && Holds(s.txs[j]);
      var next := if phase == Locked then Check(j)
                  else if phase == Inserted then Commit(j)
                  else if phase == Checked && s.txs[j].isNew then Pay(j)
                  else Insert(j);
      assert Enabled(s, next, true);
    }
  }

  /** Without waiting for the lock, two uploads of the same new image are both charged. */
  lemma UnlockedUploadsPayTwice(u: nat, v: nat, sha: Sha)
    ensures exists log :: Possible(log, false) && Charges(Run(log, false).rows, sha) == 2
  {
    var log := BothInserted(u, v, sha);
    log := Then(log, Commit(0));
    log := Then(log, Commit(1));
    var rows := Run(log, false).rows;
    assert rows == [Receipt(u, sha, true), Receipt(v, sha, true)];
    BothCharged(rows[0], rows[1]);
  }

  lemma BothCharged(r: Receipt, t: Receipt)
    requires r.sha == t.sha && r.charged && t.charged
    ensures Charges([r, t], r.sha) == 2
  {
    assert [r, t][..1] == [r] && [r][..0] == [];
    assert Charges([r], r.sha) == 1;
  }

  lemma BothInserted(u: nat, v: nat, sha: Sha) returns (log: seq<Event>)
    ensures Possible(log, false) && Run(log, false).rows == []
    ensures Run(log, false).txs == [Tx(u, sha, Inserted, true, true), Tx(v, sha, Inserted, true, true)]
  {
    log := BothPaid(u, v, sha);
    log := Then(log, Insert(0));
    log := Then(log, Insert(1));
  }

  lemma BothPaid(u: nat, v: nat, sha: Sha) returns (log: seq<Event>)
    ensures Possible(log, false) && Run(log, false).rows == []
    ensures Run(log, false).txs == [Tx(u, sha, Paid, true, true), Tx(v, sha, Paid, true, true)]
  {
    log := BothChecked(u, v, sha);
    log := Then(log, Pay(0));
    log := Then(log, Pay(1));
  }

  lemma BothChecked(u: nat, v: nat, sha: Sha) returns (log: seq<Event>)
    ensures Possible(log, false) && Run(log, false).rows == []
    ensures Run(log, false).txs == [Tx(u, sha, Checked, true, false), Tx(v, sha, Checked, true, false)]
  {
    log := Then([], Arrive(u, sha));
    log := Then(log, Arrive(v, sha));
    log := Then(log, Lock(0));
    log := Then(log, Lock(1));
    log := Then(log, Check(0));
    log := Then(log, Check(1));
  }

  lemma Then(log: seq<Event>, e: Event) returns (longer: seq<Event>)
    requires Possible(log, false) && Enabled(Run(log, false), e, false)
    ensures longer == log + [e] && Possible(longer, false)
    ensures Run(longer, false) == Step(Run(log, false), e, false)
  {
    longer := log + [e];
    assert longer[..|log|] == log;
  }
}
