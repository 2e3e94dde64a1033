/**
  The shared agent runtime. A finish or an error takes the status lock, and only later broadcasts;
  other callers may run in between. The log records every such action.
 */
module AgentRuntime {
  import opened Common
  import opened AgentTypes

  datatype Action =
    | Moved(to: ConversationStatus)  // transition_to
    | Reset(to: ConversationStatus)  // reset_for_new_turn
    | Won(call: nat)     // emit_finish / emit_error found the turn unfinished and finished it
    | Lost(call: nat)    // ... found it finished already
    | Sent(call: nat)    // the broadcast of a call that had won

  function StatusAfter(log: seq<Action>): Option<ConversationStatus> {
    if log == [] then None
    else
      var was := StatusAfter(log[..|log| - 1]);
      match log[|log| - 1]
      case Moved(to) => if was == Some(Finished) then was else Some(to)
      case Reset(to) => Some(to)
      case Won(_) => Some(Finished)
      case Lost(_) => was
      case Sent(_) => was
  }

  /** A call wins only an unfinished turn, loses only a finished one, and broadcasts once, after winning. */
  ghost predicate Legal(log: seq<Action>) {
    log != [] ==>
      var p := log[..|log| - 1];
      && Legal(p)
      && match log[|log| - 1]
         case Won(call) => StatusAfter(p) != Some(Finished) && Won(call) !in p
         case Lost(_) => StatusAfter(p) == Some(Finished)
         case Sent(call) => Won(call) in p && Sent(call) !in p
         case _ => true
  }

  /** Finished persists until a reset. */
  lemma {:induction false} FinishedPersists(log: seq<Action>, i: nat)
    requires i <= |log| && StatusAfter(log[..i]) == Some(Finished)
    requires forall k :: i <= k < |log| ==> !log[k].Reset?
    ensures StatusAfter(log) == Some(Finished)
  {
    if i == |log| {
      assert log[..i] == log;
    } else {
      var p := log[..|log| - 1];
      assert p[..i] == log[..i];
      FinishedPersists(p, i);
    }
  }

  lemma {:induction false} LegalAt(log: seq<Action>, j: nat)
    requires Legal(log) && j < |log| && log[j].Won?
    ensures StatusAfter(log[..j]) != Some(Finished)
  {
    var p := log[..|log| - 1];
    if j < |log| - 1 {
      LegalAt(p, j);
      assert p[..j] == log[..j];
    }
  }

  /** Between two wins there is a reset. */
  lemma OneWinPerTurn(log: seq<Action>, i: nat, j: nat)
    requires Legal(log) && i < j < |log| && log[i].Won? && log[j].Won?
    ensures exists k :: i < k < j && log[k].Reset?
  {
    LegalAt(log, j);
    var p := log[..j];
    assert log[..i + 1][..i] == log[..i];
    assert StatusAfter(log[..i + 1]) == Some(Finished);
    if forall k :: i < k < j ==> !log[k].Reset? {
      assert p[..i + 1] == log[..i + 1];
      FinishedPersists(p, i + 1);
      assert false;
    }
  }

  function Winners(log: seq<Action>): set<nat> {
    set a | a in log && a.Won? :: a.call
  }

  function Senders(log: seq<Action>): set<nat> {
    set a | a in log && a.Sent? :: a.call
  }

  function SentCount(log: seq<Action>): nat {
    if log == [] then 0 else SentCount(log[..|log| - 1]) + (if log[|log| - 1].Sent? then 1 else 0)
  }

  function WonCount(log: seq<Action>): nat {
    if log == [] then 0 else WonCount(log[..|log| - 1]) + (if log[|log| - 1].Won? then 1 else 0)
  }

  lemma InSets(log: seq<Action>, call: nat)
    ensures call in Senders(log) <==> Sent(call) in log
    ensures call in Winners(log) <==> Won(call) in log
  {
  }

  lemma SetsExtend(p: seq<Action>, a: Action)
    ensures Senders(p + [a]) == Senders(p) + (if a.Sent? then {a.call} else {})
    ensures Winners(p + [a]) == Winners(p) + (if a.Won? then {a.call} else {})
  {
    forall call ensures call in Senders(p + [a]) <==> call in Senders(p) || (a.Sent? && call == a.call) {
      InSets(p + [a], call);
      InSets(p, call);
    }
    forall call ensures call in Winners(p + [a]) <==> call in Winners(p) || (a.Won? && call == a.call) {
      InSets(p + [a], call);
      InSets(p, call);
    }
  }

  lemma {:induction false} CountsAreSets(log: seq<Action>)
    requires Legal(log)
    ensures SentCount(log) == |Senders(log)| && WonCount(log) == |Winners(log)| && Senders(log) <= Winners(log)
  {
    if log != [] {
      var p, a := log[..|log| - 1], log[|log| - 1];
      CountsAreSets(p);
      assert log == p + [a];
      SetsExtend(p, a);
      if a.Sent? || a.Won? {
        InSets(p, a.call);
      }
    }
  }

  lemma SubsetSize(a: set<nat>, b: set<nat>)
    requires a <= b
    ensures |a| <= |b|
  {
    assert b == a + (b - a);
  }

  /** Broadcasts never outnumber wins. */
  lemma BroadcastsWithinWins(log: seq<Action>)
    requires Legal(log)
    ensures SentCount(log) <= WonCount(log)
  {
    CountsAreSets(log);
    SubsetSize(Senders(log), Winners(log));
  }

  // ----- which turn a broadcast lands in -----

  /** The number of resets before position `i`: which turn the action there belongs to. */
  function TurnNumber(log: seq<Action>, i: nat): nat
    requires i <= |log|
  {
    if i == 0 then 0 else TurnNumber(log, i - 1) + (if log[i - 1].Reset? then 1 else 0)
  }

  /** Two positions are in the same turn exactly if no reset lies between them. */
  lemma {:induction false} SameTurnExactly(log: seq<Action>, i: nat, j: nat)
    requires i <= j <= |log|
    ensures TurnNumber(log, i) <= TurnNumber(log, j)
    ensures TurnNumber(log, i) == TurnNumber(log, j) <==> forall k :: i <= k < j ==> !log[k].Reset?
  {
    if i < j {
      SameTurnExactly(log, i, j - 1);
    }
  }

  /** A broadcast comes after the one win of its call. */
  lemma {:induction false} SentAfterWin(log: seq<Action>, p: nat) returns (w: nat)
    requires Legal(log) && p < |log| && log[p].Sent?
    ensures w < p && log[w] == Won(log[p].call)
  {
    var n := |log| - 1;
    if p < n {
      w := SentAfterWin(log[..n], p);
    } else {
      w :| 0 <= w < n && log[..n][w] == Won(log[p].call);
    }
  }

  lemma {:induction false} SentOnce(log: seq<Action>, p: nat, q: nat)
    requires Legal(log) && p < q < |log| && log[p].Sent? && log[q].Sent?
    ensures log[p].call != log[q].call
  {
    var n := |log| - 1;
    if q < n {
      SentOnce(log[..n], p, q);
    } else {
      assert log[..n][p] == log[p];
    }
  }

  /** The broadcast at `p` belongs to a win of its own turn. */
  predicate InOwnTurn(log: seq<Action>, p: nat)
    requires p < |log| && log[p].Sent?
  {
    exists w :: 0 <= w < p && log[w] == Won(log[p].call) && TurnNumber(log, w) == TurnNumber(log, p)
  }

  /** The atomicity the comments promise shows exactly as long as no reset comes between a win and its broadcast. */
  lemma InOwnTurnExactly(log: seq<Action>, w: nat, p: nat)
    requires Legal(log) && w < p < |log| && log[p].Sent? && log[w] == Won(log[p].call)
    ensures InOwnTurn(log, p) <==> forall k :: w < k < p ==> !log[k].Reset?
  {
    SameTurnExactly(log, w, p);
    if v :| 0 <= v < p && log[v] == Won(log[p].call) && TurnNumber(log, v) == TurnNumber(log, p) {
      WonOnce(log, v, w);
    }
  }

  lemma {:induction false} WonOnce(log: seq<Action>, v: nat, w: nat)
    requires Legal(log) && v < |log| && w < |log| && log[v].Won? && log[v] == log[w]
    ensures v == w
  {
    var n := |log| - 1;
    if v < n && w < n {
      WonOnce(log[..n], v, w);
    }
  }

  /** Two broadcasts of one turn: a reset came between one of their wins and the first of them. */
  lemma SecondBroadcastIsLate(log: seq<Action>, p: nat, q: nat)
    requires Legal(log) && p < q < |log| && log[p].Sent? && log[q].Sent?
    requires forall k :: p < k < q ==> !log[k].Reset?
    ensures exists w, k :: 0 <= w < k < p && log[k].Reset?
                           && (log[w] == Won(log[p].call) || log[w] == Won(log[q].call))
  {
    var a := SentAfterWin(log, p);
    var b := SentAfterWin(log, q);
    SentOnce(log, p, q);
    var first, second := if a < b then a else b, if a < b then b else a;
    OneWinPerTurn(log, first, second);
    var k :| first < k < second && log[k].Reset?;
    assert k < p;
  }

  /** So at most one broadcast per turn belongs to that turn. */
  lemma OneOwnBroadcastPerTurn(log: seq<Action>, p: nat, q: nat)
    requires Legal(log) && p < q < |log| && log[p].Sent? && log[q].Sent?
    requires InOwnTurn(log, p) && InOwnTurn(log, q)
    ensures TurnNumber(log, p) < TurnNumber(log, q)
  {
    SameTurnExactly(log, p, q);
    if TurnNumber(log, p) == TurnNumber(log, q) {
      var a := SentAfterWin(log, p);
      var b := SentAfterWin(log, q);
      InOwnTurnExactly(log, a, p);
      InOwnTurnExactly(log, b, q);
      SentOnce(log, p, q);
      OneWinPerTurn(log, if a < b then a else b, if a < b then b else a);
    }
  }

  /** Both ends of a race: a turn that sees two broadcasts, the second of them left over from the turn before. */
  lemma TwoBroadcastsInOneTurn()
    ensures var log := [Won(0), Reset(Running), Won(1), Sent(1), Sent(0)];
            Legal(log) && TurnNumber(log, 3) == TurnNumber(log, 4) && InOwnTurn(log, 3) && !InOwnTurn(log, 4)
  {
    var turn := [Won(0), Reset(Running), Won(1)];
    RaceStarts();
    var sent := turn + [Sent(1)];
    assert sent[..3] == turn && turn[2] == Won(1) && turn[0] == Won(0);
    assert Sent(1) !in turn && Legal(sent);
    var log := sent + [Sent(0)];
    assert log[..4] == sent && sent[0] == Won(0) && Sent(0) !in sent && Legal(log);
    assert log == [Won(0), Reset(Running), Won(1), Sent(1), Sent(0)];
    assert TurnNumber(log, 0) == TurnNumber(log, 1) == 0 && TurnNumber(log, 2) == TurnNumber(log, 3) == 1;
    assert log[2] == Won(log[3].call) && TurnNumber(log, 4) == 1;
  }

  lemma RaceStarts()
    ensures Legal([Won(0), Reset(Running), Won(1)])
  {
    assert [Won(0)][..0] == [] && [Won(0), Reset(Running)][..1] == [Won(0)];
    assert Legal([Won(0)]) && Legal([Won(0), Reset(Running)]);
    assert StatusAfter([Won(0), Reset(Running)]) == Some(Running);
    assert [Won(0), Reset(Running), Won(1)][..2] == [Won(0), Reset(Running)];
  }

  class AgentRuntime {
    var status: Option<ConversationStatus>
    ghost var log: seq<Action>

    ghost predicate Valid()
      reads this
    {
      Legal(log) && status == StatusAfter(log)
    }

    constructor ()
      ensures Valid() && log == []
    {
      status, log := None, [];
    }

    ghost method Record(a: Action)
      requires Legal(log + [a]) && status == StatusAfter(log + [a])
      modifies `log
      ensures Valid() && log == old(log) + [a]
    {
      log := log + [a];
    }

    /** Finished is absorbing. */
    method TransitionTo(to: ConversationStatus)
      requires Valid()
      modifies this
      ensures Valid() && log == old(log) + [Moved(to)]
    {
      assert (log + [Moved(to)])[..|log|] == log;
      if status != Some(Finished) {
        status := Some(to);
      }
      Record(Moved(to));
    }

    method ResetForNewTurn(to: ConversationStatus)
      requires Valid()
      modifies this
      ensures Valid() && log == old(log) + [Reset(to)]
    {
      assert (log + [Reset(to)])[..|log|] == log;
      status := Some(to);
      Record(Reset(to));
    }

    /** The locked half of `emit_finish` and `emit_error_data`. */
    method Claim(call: nat) returns (won: bool)
      requires Valid() && Won(call) !in log
      modifies this
      ensures Valid() && won == (old(status) != Some(Finished))
      ensures log == old(log) + [if won then Won(call) else Lost(call)]
      ensures status == Some(Finished)
    {
      won := status != Some(Finished);
      assert (log + [Won(call)])[..|log|] == log && (log + [Lost(call)])[..|log|] == log;
      if won {
        status := Some(Finished);
        Record(Won(call));
      } else {
        Record(Lost(call));
      }
    }

    /** The other half: broadcast, if the lock was won. */
    method Broadcast(call: nat, won: bool)
      requires Valid() && (won <==> Won(call) in log) && Sent(call) !in log
      modifies this
      ensures Valid() && log == old(log) + (if won then [Sent(call)] else [])
    {
      if won {
        assert (log + [Sent(call)])[..|log|] == log;
        Record(Sent(call));
      }
    }
  }
}
