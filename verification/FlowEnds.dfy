/** Who stands on each side of a transaction's flows, and as what, told from the participants' own changes. */
module FlowEnds {
  import opened Common
  import opened Decimals
  import opened Sorting
  import opened TxFlows

  // ----- Members of the lists the flows are made from -----

  lemma PartyAmong(entries: seq<Entry>, who: nat, amount: int)
    ensures Party(who, amount) in PartyEnds(entries) <==> Entry(who, amount) in entries
  {
    var sorted := Sort(entries, Before);
    SortMembers(entries, Before);
    var ends := AsEnds(sorted);
    if Entry(who, amount) in sorted {
      var i :| 0 <= i < |sorted| && sorted[i] == Entry(who, amount);
      assert ends[i] == Party(who, amount);
    }
    if Party(who, amount) in ends {
      var i :| 0 <= i < |ends| && ends[i] == Party(who, amount);
      assert sorted[i] == Entry(who, amount);
    }
  }

  lemma {:induction false} GiftAmong(ss: seq<Signed>, e: Entry)
    ensures e in Gifts(ss) <==> e.amount > 0 && Signed(e.who, -e.amount) in ss
  {
    if ss != [] {
      var n := |ss| - 1;
      GiftAmong(ss[..n], e);
      assert ss == ss[..n] + [ss[n]];
    }
  }

  lemma {:induction false} ReceiptAmong(ss: seq<Signed>, e: Entry)
    ensures e in Receipts(ss) <==> e.amount > 0 && Signed(e.who, e.amount) in ss
  {
    if ss != [] {
      var n := |ss| - 1;
      ReceiptAmong(ss[..n], e);
      assert ss == ss[..n] + [ss[n]];
    }
  }

  lemma {:induction false} CkbChange(ps: seq<Participant>, s: Signed)
    ensures s in CkbDeltas(ps) <==> s.who < |ps| && s.amount == Number(ps[s.who].ckbDelta)
  {
    hide Number;
    if ps != [] { CkbChange(ps[..|ps| - 1], s); }
  }

  /** A participant lists this change of the item with this key. */
  ghost predicate Lists(ps: seq<Participant>, key: string, s: Signed) {
    s.who < |ps| && exists x :: x in ps[s.who].itemDeltas && FlowKey(x) == key && Number(x.delta) == s.amount
  }

  ghost predicate Books(done: seq<Posting>, key: string, s: Signed) {
    exists k :: 0 <= k < |done| && done[k].who == s.who && FlowKey(done[k].item) == key
      && Number(done[k].item.delta) == s.amount
  }

  lemma {:induction false} DeltaAmong(done: seq<Posting>, key: string, s: Signed)
    ensures s in DeltasOf(done, key) <==> Books(done, key, s)
  {
    hide Number, FlowKey;
    if done != [] { DeltaAmong(done[..|done| - 1], key, s); }
  }

  lemma {:induction false} PostingAmong(ps: seq<Participant>, p: Posting)
    ensures p in Postings(ps) <==> p.who < |ps| && p.item in ps[p.who].itemDeltas
  {
    if ps != [] {
      var n := |ps| - 1;
      PostingAmong(ps[..n], p);
      PostedBy(n, ps[n].itemDeltas, p);
    }
  }

  lemma PostedBy(who: nat, items: seq<ItemDelta>, p: Posting)
    ensures p in PostingsOf(who, items) <==> p.who == who && p.item in items
  {
    var r := PostingsOf(who, items);
    if p.who == who && p.item in items {
      var i :| 0 <= i < |items| && items[i] == p.item;
      assert r[i] == p;
    }
  }

  lemma ItemChange(ps: seq<Participant>, key: string, s: Signed)
    ensures s in DeltasOf(Postings(ps), key) <==> Lists(ps, key, s)
  {
    hide Number, FlowKey, DeltasOf, Postings;
    var done := Postings(ps);
    DeltaAmong(done, key, s);
    if Books(done, key, s) {
      var k :| 0 <= k < |done| && done[k].who == s.who && FlowKey(done[k].item) == key
        && Number(done[k].item.delta) == s.amount;
      PostingAmong(ps, done[k]);
      assert done[k].item in ps[s.who].itemDeltas;
    }
    if Lists(ps, key, s) {
      var x :| x in ps[s.who].itemDeltas && FlowKey(x) == key && Number(x.delta) == s.amount;
      PostingAmong(ps, Posting(s.who, x));
      var k :| 0 <= k < |done| && done[k] == Posting(s.who, x);
    }
  }

  /** The postings go through the participants in the API's order. */
  lemma {:induction false} PostingsInOrder(ps: seq<Participant>, i: nat, j: nat)
    requires i < j < |Postings(ps)|
    ensures Postings(ps)[i].who <= Postings(ps)[j].who < |ps|
  {
    var n := |ps| - 1;
    var front := Postings(ps[..n]);
    if j < |front| {
      PostingsInOrder(ps[..n], i, j);
    } else if i < |front| {
      PostingAmong(ps[..n], front[i]);
    }
  }

  // ----- The sides of the CKB flow -----

  /**
   Givers: the participants whose CKB went down, the DAO's compensation and, in a genesis transaction, the issue.
   Receivers: the participants whose CKB went up, and the miner exactly when there is a fee.
   */
  ghost predicate CkbSides(ps: seq<Participant>, fee: int, compensation: Option<int>, genesis: bool,
      from: seq<FlowEnd>, to: seq<FlowEnd>) {
    && (forall end :: end in from <==> CkbGiver(ps, fee, compensation, genesis, end))
    && (forall end :: end in to <==> CkbReceiver(ps, fee, end))
  }

  ghost predicate CkbGiver(ps: seq<Participant>, fee: int, compensation: Option<int>, genesis: bool, end: FlowEnd) {
    || (end.Party? && end.who < |ps| && end.amount > 0 && Number(ps[end.who].ckbDelta) == -end.amount)
    || (end.Compensation? && compensation == Some(end.amount))
    || (end.Genesis? && genesis && end.amount == Net(CkbDeltas(ps)) + fee - Compensated(compensation))
  }

  ghost predicate CkbReceiver(ps: seq<Participant>, fee: int, end: FlowEnd) {
    || (end.Party? && end.who < |ps| && end.amount > 0 && Number(ps[end.who].ckbDelta) == end.amount)
    || (end.Miner? && end.amount == fee > 0)
  }

  lemma OnlyPartiesAmong(entries: seq<Entry>, end: FlowEnd)
    ensures end in PartyEnds(entries) ==> end.Party?
  {
    OnlyParties(entries);
    hide PartyEnds;
  }

  lemma CkbEnd(ps: seq<Participant>, fee: int, compensation: Option<int>, genesis: bool, end: FlowEnd)
    ensures end in CkbFrom(CkbDeltas(ps), fee, compensation, genesis) <==>
      CkbGiver(ps, fee, compensation, genesis, end)
    ensures end in CkbTo(CkbDeltas(ps), fee) <==> CkbReceiver(ps, fee, end)
  {
    hide PartyEnds, Gifts, Receipts, CkbDeltas, Number, Net;
    var ss := CkbDeltas(ps);
    OnlyPartiesAmong(Gifts(ss), end);
    OnlyPartiesAmong(Receipts(ss), end);
    if end.Party? {
      PartyAmong(Gifts(ss), end.who, end.amount);
      PartyAmong(Receipts(ss), end.who, end.amount);
      GiftAmong(ss, Entry(end.who, end.amount));
      ReceiptAmong(ss, Entry(end.who, end.amount));
      CkbChange(ps, Signed(end.who, -end.amount));
      CkbChange(ps, Signed(end.who, end.amount));
    }
  }

  // ----- The sides of an item's flow -----

  /** Givers and receivers are the participants that list a change; what is left over was minted or burnt. */
  ghost predicate ItemSides(ps: seq<Participant>, key: string, from: seq<FlowEnd>, to: seq<FlowEnd>) {
    && (forall end :: end in from <==> ItemGiver(ps, key, end))
    && (forall end :: end in to <==> ItemReceiver(ps, key, end))
  }

  ghost predicate ItemGiver(ps: seq<Participant>, key: string, end: FlowEnd) {
    end.amount > 0 &&
    ((end.Party? && Lists(ps, key, Signed(end.who, -end.amount)))
     || (end.Minted? && Net(DeltasOf(Postings(ps), key)) == end.amount))
  }

  ghost predicate ItemReceiver(ps: seq<Participant>, key: string, end: FlowEnd) {
    end.amount > 0 &&
    ((end.Party? && Lists(ps, key, Signed(end.who, end.amount)))
     || (end.Burnt? && Net(DeltasOf(Postings(ps), key)) == -end.amount))
  }

  lemma ItemEnd(ps: seq<Participant>, key: string, end: FlowEnd)
    ensures var ss := DeltasOf(Postings(ps), key);
      && (end in ItemFrom(ss) <==> ItemGiver(ps, key, end)) && (end in ItemTo(ss) <==> ItemReceiver(ps, key, end))
  {
    hide PartyEnds, Gifts, Receipts, DeltasOf, Postings, Lists, Net;
    var ss := DeltasOf(Postings(ps), key);
    OnlyPartiesAmong(Gifts(ss), end);
    OnlyPartiesAmong(Receipts(ss), end);
    if end.Party? {
      PartyAmong(Gifts(ss), end.who, end.amount);
      PartyAmong(Receipts(ss), end.who, end.amount);
      GiftAmong(ss, Entry(end.who, end.amount));
      ReceiptAmong(ss, Entry(end.who, end.amount));
      ItemChange(ps, key, Signed(end.who, -end.amount));
      ItemChange(ps, key, Signed(end.who, end.amount));
    }
  }

  /**
   Every flow names, on each side, exactly who and what the participants' own changes say: items first, each under its
   key, and CKB last.
   */
  lemma {:induction false} SidesAre(ps: seq<Participant>, fee: int, compensation: Option<int>, genesis: bool, i: nat)
    requires i < |Flows(ps, fee, compensation, genesis)|
    ensures var flows := Flows(ps, fee, compensation, genesis);
      var flow := flows[i];
      if flow.asset.Ckb? then
        i == |flows| - 1 && flow.key == "ckb" && CkbSides(ps, fee, compensation, genesis, flow.from, flow.to)
      else
        FlowKey(flow.asset.item) == flow.key && ItemSides(ps, flow.key, flow.from, flow.to)
  {
    hide CkbFrom, CkbTo, ItemFrom, ItemTo, Keys, DeltasOf, Postings, CkbDeltas, Sum, FlowKey, CkbGiver, CkbReceiver,
      ItemGiver, ItemReceiver, FirstItem;
    var flows, done := Flows(ps, fee, compensation, genesis), Postings(ps);
    if i < |Keys(done)| {
      var key := Keys(done)[i];
      assert flows[i] == ItemFlow(done, key);
      assert FlowKey(done[FirstAt(done, key)].item) == key;
      forall end { ItemEnd(ps, key, end); }
    } else {
      forall end { CkbEnd(ps, fee, compensation, genesis, end); }
    }
  }

  /** There is a flow of CKB exactly when somebody's CKB changed, or a fee, a compensation or an issue is there. */
  lemma CkbFlowExactlyWhen(ps: seq<Participant>, fee: int, compensation: Option<int>, genesis: bool)
    ensures (exists i :: 0 <= i < |Flows(ps, fee, compensation, genesis)|
                         && Flows(ps, fee, compensation, genesis)[i].asset.Ckb?) <==>
      || genesis || compensation.Some? || fee > 0
      || exists who :: 0 <= who < |ps| && Number(ps[who].ckbDelta) != 0
  {
    hide CkbFrom, CkbTo, Keys, DeltasOf, Postings, CkbDeltas, Sum, Number, ItemFlow;
    var flows, done := Flows(ps, fee, compensation, genesis), Postings(ps);
    var from, to := CkbFrom(CkbDeltas(ps), fee, compensation, genesis), CkbTo(CkbDeltas(ps), fee);
    forall i | 0 <= i < |Keys(done)| ensures !flows[i].asset.Ckb? { ItemNotCkb(done, Keys(done)[i]); }
    if from != [] || to != [] {
      assert flows[|Keys(done)|].asset.Ckb?;
      if from != [] { CkbEnd(ps, fee, compensation, genesis, from[0]); }
      if to != [] { CkbEnd(ps, fee, compensation, genesis, to[0]); }
    }
    if genesis {
      CkbEnd(ps, fee, compensation, genesis, Genesis(Net(CkbDeltas(ps)) + fee - Compensated(compensation)));
    }
    if compensation.Some? { CkbEnd(ps, fee, compensation, genesis, Compensation(compensation.value)); }
    if fee > 0 { CkbEnd(ps, fee, compensation, genesis, Miner(fee)); }
    forall who | 0 <= who < |ps| && Number(ps[who].ckbDelta) != 0 ensures from != [] || to != [] {
      var delta := Number(ps[who].ckbDelta);
      CkbEnd(ps, fee, compensation, genesis, Party(who, if delta < 0 then -delta else delta));
    }
  }

  lemma ItemNotCkb(done: seq<Posting>, key: string)
    requires key in Keys(done)
    ensures ItemFlow(done, key).asset.Item?
  {
  }

  // ----- The Net row's sums -----

  /** Both sums of the Net row are made of one participant's changes after another. */
  lemma {:induction false} TotalsJoin(ps: seq<Participant>, p: Participant)
    ensures UsedTotal([]) == 0 && Net(CkbDeltas([])) == 0
    ensures UsedTotal(ps + [p]) == UsedTotal(ps) + Number(p.usedDelta)
    ensures Net(CkbDeltas(ps + [p])) == Net(CkbDeltas(ps)) + Number(p.ckbDelta)
  {
    var all := ps + [p];
    NextNet(all, |ps|);
    assert all[..|ps|] == ps && all[..|ps| + 1] == all;
  }

  /** The participants' CKB changes added up, from the first on. */
  ghost function Gain(ps: seq<Participant>): int {
    if ps == [] then 0 else Number(ps[0].ckbDelta) + Gain(ps[1..])
  }

  lemma {:induction false} GainMore(ps: seq<Participant>, p: Participant)
    ensures Gain(ps + [p]) == Gain(ps) + Number(p.ckbDelta)
  {
    hide Number;
    if ps == [] {
      assert ps + [p] == [p] && [p][1..] == [];
    } else {
      assert (ps + [p])[1..] == ps[1..] + [p];
      GainMore(ps[1..], p);
    }
  }

  lemma {:induction false} GainIsNet(ps: seq<Participant>)
    ensures Net(CkbDeltas(ps)) == Gain(ps)
  {
    hide Number, Net, CkbDeltas;
    if ps == [] {
      NoChanges();
    } else {
      var n := |ps| - 1;
      GainIsNet(ps[..n]);
      TotalsJoin(ps[..n], ps[n]);
      GainMore(ps[..n], ps[n]);
      assert ps[..n] + [ps[n]] == ps;
    }
  }

  ghost predicate AllSigned(ps: seq<Participant>) { forall i :: 0 <= i < |ps| ==> IsSigned(ps[i].ckbDelta) }

  ghost predicate ItemsSigned(ps: seq<Participant>) {
    forall i, j :: 0 <= i < |ps| && 0 <= j < |ps[i].itemDeltas| ==> IsSigned(ps[i].itemDeltas[j].delta)
  }

  ghost predicate UsedSigned(ps: seq<Participant>) { forall i :: 0 <= i < |ps| ==> IsSigned(ps[i].usedDelta) }

  lemma TextsRead(ps: seq<Participant>)
    ensures AllSigned(ps) <==> CkbRead(ps)
    ensures ItemsSigned(ps) <==> ItemsRead(ps)
    ensures UsedSigned(ps) <==> UsedRead(ps)
  {
    hide ParseSigned, IsSigned;
    forall s { SignedExactlyWhen(s); }
  }

  /**
   The flows are given exactly when every change is a number, the fee is one that is not negative, a compensation is
   positive, and the changes and the fee come to the compensation, or to more in a genesis transaction.
   */
  lemma AcceptedExactlyWhen(ps: seq<Participant>, fee: string, compensation: Option<int>, genesis: bool)
    ensures FlowsAccepted(ps, fee, compensation, genesis) <==>
      && ItemsSigned(ps) && AllSigned(ps) && IsSigned(fee) && 0 <= Number(fee)
      && (compensation.Some? ==> 0 < compensation.value)
      && var paid := if compensation.Some? then compensation.value else 0;
         if genesis then Gain(ps) + Number(fee) > paid else Gain(ps) + Number(fee) == paid
  {
    hide ParseSigned, IsSigned, ItemsSigned, AllSigned, ItemsRead, CkbRead, Gain, Net, CkbDeltas, Number;
    TextsRead(ps);
    SignedExactlyWhen(fee);
    GainIsNet(ps);
  }

  /** The Net row is given exactly when both changes of everybody are numbers and, outside genesis, they balance. */
  lemma NetExactlyWhen(ps: seq<Participant>, fee: string, compensation: Option<int>, genesis: bool)
    ensures NetAccepted(ps, fee, compensation, genesis) <==>
      && AllSigned(ps) && UsedSigned(ps)
      && (!genesis ==>
            IsSigned(fee) && Gain(ps) + Number(fee) == if compensation.Some? then compensation.value else 0)
  {
    hide ParseSigned, IsSigned, UsedSigned, AllSigned, UsedRead, CkbRead, Gain, Net, CkbDeltas, Number;
    TextsRead(ps);
    SignedExactlyWhen(fee);
    GainIsNet(ps);
  }

  // ----- Folding -----

  /** A side is folded exactly when it is not expanded and names more than six parties. */
  lemma FoldsExactlyWhen(ends: seq<FlowEnd>, expanded: bool)
    requires NoMore(ends)
    ensures FoldEnds(ends, expanded) != ends <==> !expanded && PartyCount(ends) > 6
    ensures (exists i :: 0 <= i < |FoldEnds(ends, expanded)| && FoldEnds(ends, expanded)[i].More?) <==>
      !expanded && PartyCount(ends) > 6
  {
    hide Keep, Sum, PartyCount;
    RegroupedTotals(ends);
    var parties := Keep(ends, 1);
    if !expanded && |parties| > 6 {
      var folded := FoldEnds(ends, expanded);
      assert folded[|Keep(ends, 0)| + 5].More?;
    }
  }
}
