// Why a stored event never changes: the broker keeps one key in one partition,
// and a worker settles each earlier record of its partition before it claims a
// later one, so only the first record of a key is ever persisted.
module FirstDelivery {
  import opened Broker
  import opened Delivery
  import L = Ledger

  // Each record lies where its key belongs.
  ghost predicate Partitioned(log: seq<Record>, partitionOf: Partitioning) {
    forall i: nat :: i < |log| && Processable(log[i]) ==> log[i].partition == partitionOf(KeyAt(log, i))
  }

  ghost predicate IsFirst(log: seq<Record>, i: nat) {
    && i < |log| && Processable(log[i])
    && forall j: nat :: j < i && Processable(log[j]) ==> KeyAt(log, j) != KeyAt(log, i)
  }

  ghost predicate IsFirstRow(log: seq<Record>, row: L.SpanRow) {
    exists i: nat :: IsFirst(log, i) && row == L.RowOf(EnvelopeAt(log, i))
  }

  // Whatever is persisted, now or earlier, is the first record of its key.
  ghost predicate FirstOnly(log: seq<Record>, s: State) {
    && (forall w :: w in s.consumers && s.consumers[w].Claimed? ==> IsFirst(log, s.consumers[w].at))
    && (forall row :: row in s.sink ==> IsFirstRow(log, row))
  }

  // A claim that succeeds finds no earlier record of the key: that one would be
  // settled, and the key terminal.
  lemma ClaimedIsFirst(log: seq<Record>, s: State, c: Consumer, partitionOf: Partitioning)
    requires Partitioned(log, partitionOf) && c.Fetched? && ConsumerOk(log, s, c) && Processable(log[c.at])
    requires !L.Terminal(s.ledger, KeyAt(log, c.at))
    ensures IsFirst(log, c.at)
  {
    forall j: nat | j < c.at && Processable(log[j]) ensures KeyAt(log, j) != KeyAt(log, c.at) {
      assert log[j].partition == c.partition ==> Done(log, s, j);
    }
  }

  lemma StepFirst(log: seq<Record>, s: State, a: Action, partitionOf: Partitioning)
    requires Enabled(log, s, a) && Committed(log, s) && Partitioned(log, partitionOf) && FirstOnly(log, s)
    ensures FirstOnly(log, Do(log, s, a))
  {
    var t := Do(log, s, a);
    if a.Claim? {
      var c := ConsumerOf(s, a.w);
      if t.consumers[a.w].Claimed? {
        ClaimedIsFirst(log, s, c, partitionOf);
      }
    }
    hide Committed, Partitioned, IsFirst, Processable;
    if a.Persist? {
      assert IsFirstRow(log, L.RowOf(EnvelopeAt(log, ConsumerOf(s, a.w).at)));
    }
  }

  lemma FirstStaysFirst(log: seq<Record>, r: Record, i: nat)
    requires IsFirst(log, i)
    ensures IsFirst(log + [r], i) && EnvelopeAt(log + [r], i) == EnvelopeAt(log, i)
  {
  }

  lemma AppendFirst(log: seq<Record>, r: Record, s: State)
    requires FirstOnly(log, s)
    ensures FirstOnly(log + [r], s)
  {
    forall w | w in s.consumers && s.consumers[w].Claimed? ensures IsFirst(log + [r], s.consumers[w].at) {
      FirstStaysFirst(log, r, s.consumers[w].at);
    }
    forall row | row in s.sink ensures IsFirstRow(log + [r], row) {
      var i: nat :| IsFirst(log, i) && row == L.RowOf(EnvelopeAt(log, i));
      FirstStaysFirst(log, r, i);
    }
  }

  lemma OneFirst(log: seq<Record>, i: nat, j: nat)
    requires IsFirst(log, i) && IsFirst(log, j) && KeyAt(log, i) == KeyAt(log, j)
    ensures i == j
  {
    if i < j {
    } else if j < i {
    }
  }

  lemma OneRowPerKey(log: seq<Record>, a: L.SpanRow, b: L.SpanRow)
    requires IsFirstRow(log, a) && IsFirstRow(log, b) && a.key == b.key
    ensures a == b
  {
    var i: nat :| IsFirst(log, i) && a == L.RowOf(EnvelopeAt(log, i));
    var j: nat :| IsFirst(log, j) && b == L.RowOf(EnvelopeAt(log, j));
    OneFirst(log, i, j);
  }

  // Once a key is terminal, no further row of it is stored beyond those under way.
  lemma TerminalStopsGrowth(log: seq<Record>, s: State, a: Action, k: string)
    requires Enabled(log, s, a) && L.Terminal(s.ledger, k)
    ensures var t := Do(log, s, a);
            RowsFor(t.sink, k) + |Persisting(log, t, k)| <= RowsFor(s.sink, k) + |Persisting(log, s, k)|
    ensures L.Terminal(Do(log, s, a).ledger, k)
  {
    var t := Do(log, s, a);
    if ByOthers(a) {
      assert Persisting(log, t, k) == Persisting(log, s, k);
    } else {
      PersistingChanges(log, s, t, a.w, k);
      if a.Persist? {
        RowsForGrow(s.sink, L.RowOf(EnvelopeAt(log, ConsumerOf(s, a.w).at)), k);
      }
    }
  }
}
