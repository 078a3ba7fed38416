/**
 What a transaction moved (lib/tx-flows.ts) and the independent check of its balance changes
 (`balanceNet`, lib/tx-detail-model.ts). A participant is known by its place in the API's list.
 */
module TxFlows {
  import opened Common
  import opened Decimals
  import opened Sorting

  datatype ItemDelta =
    | Token(typeScriptHash: string, delta: string)
    | Object(objectId: string, delta: string)
    | Identity(standard: string, identityId: string, delta: string)

  datatype Participant = Participant(ckbDelta: string, usedDelta: string, itemDeltas: seq<ItemDelta>)

  datatype FlowEnd =
    | Party(who: nat, amount: int)
    | Miner(amount: int)
    | Compensation(amount: int)
    | Genesis(amount: int)
    | Minted(amount: int)
    | Burnt(amount: int)
    | More(count: nat, amount: int, ends: seq<FlowEnd>)

  datatype Asset = Ckb | Item(item: ItemDelta)

  datatype Flow = Flow(key: string, asset: Asset, from: seq<FlowEnd>, to: seq<FlowEnd>, total: int)

  datatype Entry = Entry(who: nat, amount: int)

  function FlowKey(item: ItemDelta): string {
    match item
    case Token(hash, _) => "token:" + hash
    case Object(id, _) => "object:" + id
    case Identity(standard, id, _) => "identity:" + standard + ":" + id
  }

  predicate SameAsset(x: ItemDelta, y: ItemDelta) {
    match (x, y)
    case (Token(a, _), Token(b, _)) => a == b
    case (Object(a, _), Object(b, _)) => a == b
    case (Identity(s, a, _), Identity(t, b, _)) => s == t && a == b
    case _ => false
  }

  /** A standard's name holds no colon, as none of the API's do. */
  predicate PlainStandard(x: ItemDelta) { x.Identity? ==> ':' !in x.standard }

  lemma {:induction false} FirstColon(s: string, i: string, t: string, j: string)
    requires ':' !in s && ':' !in t && s + ":" + i == t + ":" + j
    ensures s == t && i == j
  {
    var x, y := s + ":" + i, t + ":" + j;
    assert x[|s|] == ':' && y[|t|] == ':';
    assert forall k :: 0 <= k < |s| ==> x[k] == s[k] && s[k] in s;
    assert forall k :: 0 <= k < |t| ==> y[k] == t[k] && t[k] in t;
    assert |s| == |t|;
    assert s == x[..|s|] && t == y[..|t|];
    assert i == x[|s| + 1..] && j == y[|t| + 1..];
  }

  lemma {:induction false} AfterPrefix(prefix: string, a: string, b: string)
    ensures prefix + a == prefix + b <==> a == b
  {
    assert (prefix + a)[|prefix|..] == a && (prefix + b)[|prefix|..] == b;
  }

  /** A key stands for one asset, and an asset has one key. */
  lemma {:induction false} KeyIsAsset(x: ItemDelta, y: ItemDelta)
    requires PlainStandard(x) && PlainStandard(y)
    ensures FlowKey(x) == FlowKey(y) <==> SameAsset(x, y)
  {
    match (x, y)
    case (Token(a, _), Token(b, _)) => AfterPrefix("token:", a, b);
    case (Object(a, _), Object(b, _)) => AfterPrefix("object:", a, b);
    case (Identity(s, a, _), Identity(t, b, _)) =>
      IdentityKey(s, a, t, b);
    case _ =>
      assert FlowKey(x)[0] != FlowKey(y)[0];
  }

  lemma {:induction false} IdentityKey(s: string, a: string, t: string, b: string)
    requires ':' !in s && ':' !in t
    ensures "identity:" + s + ":" + a == "identity:" + t + ":" + b <==> s == t && a == b
  {
    assert "identity:" + s + ":" + a == "identity:" + (s + ":" + a);
    assert "identity:" + t + ":" + b == "identity:" + (t + ":" + b);
    AfterPrefix("identity:", s + ":" + a, t + ":" + b);
    if s + ":" + a == t + ":" + b { FirstColon(s, a, t, b); }
  }

  /** With a colon in a standard two assets can share a key. */
  lemma {:induction false} ColonsShareKeys()
    ensures var x, y := Identity("a", "b:c", "1"), Identity("a:b", "c", "1");
      FlowKey(x) == FlowKey(y) && !SameAsset(x, y)
  {
    assert "identity:" + "a" + ":" + "b:c" == "identity:a:b:c" == "identity:" + "a:b" + ":" + "c";
  }

  /** The comparator of `partyEnds`: the larger amount first, then the API's order. */
  predicate Before(a: Entry, b: Entry) { a.amount > b.amount || (a.amount == b.amount && a.who <= b.who) }

  function AsEnds(entries: seq<Entry>): (r: seq<FlowEnd>)
    ensures |r| == |entries|
    ensures forall i :: 0 <= i < |r| ==> r[i] == Party(entries[i].who, entries[i].amount)
  {
    seq(|entries|, i requires 0 <= i < |entries| => Party(entries[i].who, entries[i].amount))
  }

  function PartyEnds(entries: seq<Entry>): seq<FlowEnd> { AsEnds(Sort(entries, Before)) }

  function Sum(ends: seq<FlowEnd>): int {
    if ends == [] then 0 else Sum(ends[..|ends| - 1]) + ends[|ends| - 1].amount
  }

  // ---- What the deltas say, apart from any flow ----

  /** A number as the API writes it; zero for a text that is not one. */
  function Number(s: string): int {
    match ParseSigned(s)
    case Some(n) => n
    case None => 0
  }

  /** A participant's signed change of one asset. */
  datatype Signed = Signed(who: nat, amount: int)

  datatype Posting = Posting(who: nat, item: ItemDelta)

  function PostingsOf(who: nat, items: seq<ItemDelta>): (r: seq<Posting>)
    ensures |r| == |items| && forall i :: 0 <= i < |r| ==> r[i] == Posting(who, items[i])
  {
    seq(|items|, i requires 0 <= i < |items| => Posting(who, items[i]))
  }

  /** Every item change in the order the participants list them. */
  function Postings(ps: seq<Participant>): seq<Posting> {
    if ps == [] then [] else var n := |ps| - 1; Postings(ps[..n]) + PostingsOf(n, ps[n].itemDeltas)
  }

  /** Each key once, where it is first listed. */
  function Keys(done: seq<Posting>): seq<string> {
    if done == [] then []
    else
      var n := |done| - 1;
      var before, key := Keys(done[..n]), FlowKey(done[n].item);
      if key in before then before else before + [key]
  }

  function FirstItem(done: seq<Posting>, key: string): ItemDelta
    requires key in Keys(done)
  {
    var n := |done| - 1;
    if key in Keys(done[..n]) then FirstItem(done[..n], key) else done[n].item
  }

  /** The changes of the item with this key. */
  function DeltasOf(done: seq<Posting>, key: string): seq<Signed> {
    if done == [] then []
    else
      var n := |done| - 1;
      DeltasOf(done[..n], key)
      + if FlowKey(done[n].item) == key then [Signed(done[n].who, Number(done[n].item.delta))] else []
  }

  function CkbDeltas(ps: seq<Participant>): seq<Signed> {
    if ps == [] then [] else var n := |ps| - 1; CkbDeltas(ps[..n]) + [Signed(n, Number(ps[n].ckbDelta))]
  }

  function Gift(s: Signed): seq<Entry> { if s.amount < 0 then [Entry(s.who, -s.amount)] else [] }

  function Receipt(s: Signed): seq<Entry> { if s.amount > 0 then [Entry(s.who, s.amount)] else [] }

  function Gifts(ss: seq<Signed>): seq<Entry> {
    if ss == [] then [] else Gifts(ss[..|ss| - 1]) + Gift(ss[|ss| - 1])
  }

  function Receipts(ss: seq<Signed>): seq<Entry> {
    if ss == [] then [] else Receipts(ss[..|ss| - 1]) + Receipt(ss[|ss| - 1])
  }

  /** The signed changes added up. */
  function Net(ss: seq<Signed>): int {
    if ss == [] then 0 else Net(ss[..|ss| - 1]) + ss[|ss| - 1].amount
  }

  /** One participant's signed changes added up. */
  function NetOf(ss: seq<Signed>, who: nat): int {
    if ss == [] then 0
    else NetOf(ss[..|ss| - 1], who) + if ss[|ss| - 1].who == who then ss[|ss| - 1].amount else 0
  }

  /** What a list of ends holds for one participant. */
  function SumFor(ends: seq<FlowEnd>, who: nat): int {
    if ends == [] then 0
    else
      var n := |ends| - 1;
      SumFor(ends[..n], who) + if ends[n].Party? && ends[n].who == who then ends[n].amount else 0
  }

  // ---- Sorting keeps every sum ----

  function Weigh(entries: seq<Entry>, f: Entry -> int): int {
    if entries == [] then 0 else Weigh(entries[..|entries| - 1], f) + f(entries[|entries| - 1])
  }

  lemma {:induction false} InsertWeighs(s: seq<Entry>, x: Entry, f: Entry -> int)
    ensures Weigh(Insert(s, x, Before), f) == Weigh(s, f) + f(x)
  {
    var r := Insert(s, x, Before);
    if s == [] {
      assert r[..0] == [];
    } else {
      var n := |s| - 1;
      if Before(s[n], x) {
        assert r[..|s|] == s;
      } else {
        InsertWeighs(s[..n], x, f);
        assert r[..|s|] == Insert(s[..n], x, Before) && r[|s|] == s[n];
      }
    }
  }

  lemma {:induction false} SortWeighs(s: seq<Entry>, f: Entry -> int)
    ensures Weigh(Sort(s, Before), f) == Weigh(s, f)
  {
    if s != [] {
      var n := |s| - 1;
      SortWeighs(s[..n], f);
      InsertWeighs(Sort(s[..n], Before), s[n], f);
    }
  }

  function Amount(): Entry -> int { (e: Entry) => e.amount }

  function AmountFor(who: nat): Entry -> int { (e: Entry) => if e.who == who then e.amount else 0 }

  lemma {:induction false} EndsWeigh(es: seq<Entry>, who: nat)
    ensures Sum(AsEnds(es)) == Weigh(es, Amount())
    ensures SumFor(AsEnds(es), who) == Weigh(es, AmountFor(who))
  {
    if es != [] {
      var n := |es| - 1;
      EndsWeigh(es[..n], who);
      assert AsEnds(es)[..n] == AsEnds(es[..n]);
    }
  }

  lemma {:induction false} WeighMore(es: seq<Entry>, more: seq<Entry>, f: Entry -> int)
    requires |more| <= 1
    ensures Weigh(es + more, f) == Weigh(es, f) + if more == [] then 0 else f(more[0])
  {
    if more == [] {
      assert es + more == es;
    } else {
      assert (es + more)[..|es|] == es;
    }
  }

  /** One change more, weighed on either side. */
  lemma {:induction false} ChangeWeighs(s: Signed, who: nat)
    ensures |Receipt(s)| <= 1 && |Gift(s)| <= 1
    ensures (if Receipt(s) == [] then 0 else Amount()(Receipt(s)[0]))
      - (if Gift(s) == [] then 0 else Amount()(Gift(s)[0])) == s.amount
    ensures (if Receipt(s) == [] then 0 else AmountFor(who)(Receipt(s)[0]))
      - (if Gift(s) == [] then 0 else AmountFor(who)(Gift(s)[0])) == if s.who == who then s.amount else 0
  {
  }

  lemma {:induction false} NothingWeighs(f: Entry -> int)
    ensures Weigh([], f) == 0
  {
  }

  lemma {:induction false} LedgerWeighs(ss: seq<Signed>, who: nat)
    ensures Weigh(Receipts(ss), Amount()) - Weigh(Gifts(ss), Amount()) == Net(ss)
    ensures Weigh(Receipts(ss), AmountFor(who)) - Weigh(Gifts(ss), AmountFor(who)) == NetOf(ss, who)
  {
    hide Weigh, Amount, AmountFor, Receipt, Gift;
    if ss == [] {
      NothingWeighs(Amount());
      NothingWeighs(AmountFor(who));
    } else {
      var n := |ss| - 1;
      LedgerWeighs(ss[..n], who);
      ChangeWeighs(ss[n], who);
      WeighMore(Receipts(ss[..n]), Receipt(ss[n]), Amount());
      WeighMore(Gifts(ss[..n]), Gift(ss[n]), Amount());
      WeighMore(Receipts(ss[..n]), Receipt(ss[n]), AmountFor(who));
      WeighMore(Gifts(ss[..n]), Gift(ss[n]), AmountFor(who));
    }
  }

  /** The receivers hold more than the givers gave by exactly the changes added up, in all and for each participant. */
  lemma {:induction false} PartiesBalance(ss: seq<Signed>, who: nat)
    ensures Sum(PartyEnds(Receipts(ss))) - Sum(PartyEnds(Gifts(ss))) == Net(ss)
    ensures SumFor(PartyEnds(Receipts(ss)), who) - SumFor(PartyEnds(Gifts(ss)), who) == NetOf(ss, who)
  {
    hide Weigh, Sum, SumFor, Sort, Receipts, Gifts, Net, NetOf, AsEnds;
    LedgerWeighs(ss, who);
    SortWeighs(Receipts(ss), Amount());
    SortWeighs(Gifts(ss), Amount());
    SortWeighs(Receipts(ss), AmountFor(who));
    SortWeighs(Gifts(ss), AmountFor(who));
    EndsWeigh(Sort(Receipts(ss), Before), who);
    EndsWeigh(Sort(Gifts(ss), Before), who);
  }

  ghost predicate AllPositive(ends: seq<FlowEnd>) { forall i :: 0 <= i < |ends| ==> ends[i].amount > 0 }

  lemma {:induction false} LedgerPositive(ss: seq<Signed>)
    ensures forall e :: e in Gifts(ss) ==> e.amount > 0
    ensures forall e :: e in Receipts(ss) ==> e.amount > 0
  {
    if ss != [] { LedgerPositive(ss[..|ss| - 1]); }
  }

  lemma {:induction false} PartiesPositive(ss: seq<Signed>)
    ensures AllPositive(PartyEnds(Gifts(ss))) && AllPositive(PartyEnds(Receipts(ss)))
  {
    hide Sort, Gifts, Receipts;
    LedgerPositive(ss);
    SortMembers(Gifts(ss), Before);
    SortMembers(Receipts(ss), Before);
    var g, r := Sort(Gifts(ss), Before), Sort(Receipts(ss), Before);
    assert forall i :: 0 <= i < |g| ==> g[i] in g;
    assert forall i :: 0 <= i < |r| ==> r[i] in r;
  }

  lemma {:induction false} SumFront(end: FlowEnd, ends: seq<FlowEnd>, who: nat)
    ensures Sum([end] + ends) == end.amount + Sum(ends)
    ensures !end.Party? ==> SumFor([end] + ends, who) == SumFor(ends, who)
  {
    var all := [end] + ends;
    if ends == [] {
      assert all[..0] == [];
    } else {
      var n := |ends| - 1;
      SumFront(end, ends[..n], who);
      assert all[..|ends|] == [end] + ends[..n];
    }
  }

  lemma {:induction false} SumBack(ends: seq<FlowEnd>, end: FlowEnd, who: nat)
    ensures Sum(ends + [end]) == Sum(ends) + end.amount
    ensures !end.Party? ==> SumFor(ends + [end], who) == SumFor(ends, who)
  {
    assert (ends + [end])[..|ends|] == ends;
  }

  // ---- One flow ----

  /** The two sides of an item: `minted` first among the givers, or `burnt` last among the receivers. */
  function ItemFrom(ss: seq<Signed>): seq<FlowEnd> {
    (if Net(ss) > 0 then [Minted(Net(ss))] else []) + PartyEnds(Gifts(ss))
  }

  function ItemTo(ss: seq<Signed>): seq<FlowEnd> {
    PartyEnds(Receipts(ss)) + if Net(ss) < 0 then [Burnt(-Net(ss))] else []
  }

  function CkbFrom(ss: seq<Signed>, fee: int, compensation: Option<int>, genesis: bool): seq<FlowEnd> {
    (if genesis then [Genesis(Surplus(ss, fee, compensation))] else [])
    + (if compensation.Some? then [Compensation(compensation.value)] else [])
    + PartyEnds(Gifts(ss))
  }

  function CkbTo(ss: seq<Signed>, fee: int): seq<FlowEnd> {
    PartyEnds(Receipts(ss)) + if fee > 0 then [Miner(fee)] else []
  }

  function Compensated(compensation: Option<int>): int { if compensation.Some? then compensation.value else 0 }

  /** What the receivers and the miner hold beyond what the givers and the DAO gave. */
  function Surplus(ss: seq<Signed>, fee: int, compensation: Option<int>): int {
    Net(ss) + fee - Compensated(compensation)
  }

  /** The two sides come to the same total, and every participant's receipts less its gifts are its own changes. */
  ghost predicate Accounts(from: seq<FlowEnd>, to: seq<FlowEnd>, ss: seq<Signed>) {
    && Sum(from) == Sum(to)
    && AllPositive(from) && AllPositive(to)
    && forall who: nat :: SumFor(to, who) - SumFor(from, who) == NetOf(ss, who)
  }

  lemma {:induction false} ItemAccounts(ss: seq<Signed>)
    ensures Accounts(ItemFrom(ss), ItemTo(ss), ss)
  {
    hide Sum, SumFor, PartyEnds, Net, NetOf, Gifts, Receipts;
    PartiesPositive(ss);
    forall who: nat ensures SumFor(ItemTo(ss), who) - SumFor(ItemFrom(ss), who) == NetOf(ss, who) {
      ItemAccountsFor(ss, who);
    }
    ItemAccountsFor(ss, 0);
  }

  lemma {:induction false} ItemAccountsFor(ss: seq<Signed>, who: nat)
    ensures SumFor(ItemTo(ss), who) - SumFor(ItemFrom(ss), who) == NetOf(ss, who)
    ensures Sum(ItemFrom(ss)) == Sum(ItemTo(ss))
  {
    hide Sum, SumFor, PartyEnds, Net, NetOf, Gifts, Receipts;
    PartiesBalance(ss, who);
    var d := Net(ss);
    var from, to := PartyEnds(Gifts(ss)), PartyEnds(Receipts(ss));
    SumFront(Minted(d), from, who);
    SumBack(to, Burnt(-d), who);
    assert [] + from == from && to + [] == to;
  }

  lemma {:induction false} CkbSidesSum(ss: seq<Signed>, fee: int, compensation: Option<int>, genesis: bool, who: nat)
    requires fee >= 0
    ensures SumFor(CkbTo(ss, fee), who) - SumFor(CkbFrom(ss, fee, compensation, genesis), who) == NetOf(ss, who)
    ensures Sum(CkbTo(ss, fee)) - Sum(CkbFrom(ss, fee, compensation, genesis))
         == if genesis then 0 else Surplus(ss, fee, compensation)
  {
    hide Sum, SumFor, PartyEnds, Net, NetOf, Gifts, Receipts;
    PartiesBalance(ss, who);
    var from, to := PartyEnds(Gifts(ss)), PartyEnds(Receipts(ss));
    SumBack(to, Miner(fee), who);
    assert to + [] == to;
    var given := (if compensation.Some? then [Compensation(compensation.value)] else []) + from;
    SumFront(Compensation(Compensated(compensation)), from, who);
    assert [] + from == from;
    SumFront(Genesis(Surplus(ss, fee, compensation)), given, who);
    assert CkbFrom(ss, fee, compensation, genesis)
        == if genesis then [Genesis(Surplus(ss, fee, compensation))] + given else given;
  }

  // ---- When the flows are given, and what they then are ----

  predicate ItemsRead(ps: seq<Participant>) {
    forall i, j :: 0 <= i < |ps| && 0 <= j < |ps[i].itemDeltas| ==> ParseSigned(ps[i].itemDeltas[j].delta).Some?
  }

  predicate CkbRead(ps: seq<Participant>) { forall i :: 0 <= i < |ps| ==> ParseSigned(ps[i].ckbDelta).Some? }

  predicate UsedRead(ps: seq<Participant>) { forall i :: 0 <= i < |ps| ==> ParseSigned(ps[i].usedDelta).Some? }

  /** The fee is a number and not negative, and a compensation is positive. */
  predicate TermsOk(fee: string, compensation: Option<int>) {
    ParseSigned(fee).Some? && Number(fee) >= 0 && (compensation.Some? ==> compensation.value > 0)
  }

  /** Exactly when `txFlows` returns. */
  predicate FlowsAccepted(ps: seq<Participant>, fee: string, compensation: Option<int>, genesis: bool) {
    && ItemsRead(ps) && CkbRead(ps) && TermsOk(fee, compensation)
    && var surplus := Surplus(CkbDeltas(ps), Number(fee), compensation);
       if genesis then surplus > 0 else surplus == 0
  }

  function ItemFlow(done: seq<Posting>, key: string): Flow
    requires key in Keys(done)
  {
    var ss := DeltasOf(done, key);
    Flow(key, Item(FirstItem(done, key)), ItemFrom(ss), ItemTo(ss), Sum(ItemFrom(ss)))
  }

  function ItemFlows(done: seq<Posting>): (flows: seq<Flow>)
    ensures |flows| == |Keys(done)|
  {
    seq(|Keys(done)|, i requires 0 <= i < |Keys(done)| => ItemFlow(done, Keys(done)[i]))
  }

  function CkbFlows(from: seq<FlowEnd>, to: seq<FlowEnd>): seq<Flow> {
    if from == [] && to == [] then [] else [Flow("ckb", Ckb, from, to, Sum(from))]
  }

  function Flows(ps: seq<Participant>, fee: int, compensation: Option<int>, genesis: bool): seq<Flow> {
    ItemFlows(Postings(ps)) + CkbFlows(CkbFrom(CkbDeltas(ps), fee, compensation, genesis), CkbTo(CkbDeltas(ps), fee))
  }

  /** The changes a flow is about. */
  ghost function AboutOf(ps: seq<Participant>, flow: Flow): seq<Signed> {
    if flow.asset.Ckb? then CkbDeltas(ps) else DeltasOf(Postings(ps), flow.key)
  }

  ghost predicate Conserves(ps: seq<Participant>, flow: Flow) {
    Accounts(flow.from, flow.to, AboutOf(ps, flow)) && flow.total == Sum(flow.from)
  }

  ghost predicate AllConserve(ps: seq<Participant>, flows: seq<Flow>) {
    forall i :: 0 <= i < |flows| ==> Conserves(ps, flows[i])
  }

  lemma {:induction false} CkbAccounts(ps: seq<Participant>, fee: string, compensation: Option<int>, genesis: bool)
    requires FlowsAccepted(ps, fee, compensation, genesis)
    ensures var ss := CkbDeltas(ps); Accounts(CkbFrom(ss, Number(fee), compensation, genesis), CkbTo(ss, Number(fee)),
      ss)
  {
    hide Sum, SumFor, Net, NetOf, Gifts, Receipts, PartyEnds, CkbDeltas, ItemsRead, CkbRead;
    var ss, f := CkbDeltas(ps), Number(fee);
    PartiesPositive(ss);
    var from, to := CkbFrom(ss, f, compensation, genesis), CkbTo(ss, f);
    forall who: nat ensures SumFor(to, who) - SumFor(from, who) == NetOf(ss, who) {
      CkbSidesSum(ss, f, compensation, genesis, who);
    }
    CkbSidesSum(ss, f, compensation, genesis, 0);
  }

  /** Whenever the flows are given, every one of them conserves. */
  lemma {:induction false} FlowsConserve(ps: seq<Participant>, fee: string, compensation: Option<int>, genesis: bool)
    requires FlowsAccepted(ps, fee, compensation, genesis)
    ensures AllConserve(ps, Flows(ps, Number(fee), compensation, genesis))
  {
    hide Accounts, Sum, Postings, CkbDeltas, Keys, DeltasOf, FirstItem, ItemFrom, ItemTo, CkbFrom, CkbTo, FlowsAccepted;
    var flows, done := Flows(ps, Number(fee), compensation, genesis), Postings(ps);
    CkbAccounts(ps, fee, compensation, genesis);
    forall i | 0 <= i < |flows| ensures Conserves(ps, flows[i]) {
      if i < |Keys(done)| {
        assert flows[i] == ItemFlow(done, Keys(done)[i]);
        ItemAccounts(DeltasOf(done, Keys(done)[i]));
      }
    }
  }

  // ---- The order of the flows and of their ends ----

  /** Where a key is first listed. */
  ghost function FirstAt(done: seq<Posting>, key: string): (k: nat)
    requires key in Keys(done)
    ensures k < |done| && FlowKey(done[k].item) == key && FirstItem(done, key) == done[k].item
  {
    var n := |done| - 1;
    if key in Keys(done[..n]) then FirstAt(done[..n], key) else n
  }

  lemma {:induction false} KeysListed(done: seq<Posting>, k: nat)
    requires k < |done|
    ensures FlowKey(done[k].item) in Keys(done) && FirstAt(done, FlowKey(done[k].item)) <= k
  {
    var n := |done| - 1;
    if k < n { KeysListed(done[..n], k); }
  }

  /** A key's first listing is where it says: nothing before it has that key. */
  lemma {:induction false} FirstAtIsFirst(done: seq<Posting>, key: string)
    requires key in Keys(done)
    ensures forall k :: 0 <= k < FirstAt(done, key) ==> FlowKey(done[k].item) != key
  {
    hide Keys, FlowKey;
    forall k | 0 <= k < FirstAt(done, key) ensures FlowKey(done[k].item) != key {
      KeysListed(done, k);
    }
  }

  /** Every item listed has its key, and every key is some listed item's. */
  lemma {:induction false} KeysAreListed(done: seq<Posting>, key: string)
    ensures key in Keys(done) <==> exists k :: 0 <= k < |done| && FlowKey(done[k].item) == key
  {
    hide Keys, FlowKey;
    if key in Keys(done) { assert FlowKey(done[FirstAt(done, key)].item) == key; }
    if k :| 0 <= k < |done| && FlowKey(done[k].item) == key { KeysListed(done, k); }
  }

  /** So a flow is about one asset: every item booked under its key is that of its first listing. */
  lemma {:induction false} FlowIsOneAsset(done: seq<Posting>, k: nat)
    requires k < |done| && forall i :: 0 <= i < |done| ==> PlainStandard(done[i].item)
    ensures FlowKey(done[k].item) in Keys(done) && SameAsset(FirstItem(done, FlowKey(done[k].item)), done[k].item)
  {
    hide Keys, FlowKey, SameAsset, PlainStandard;
    KeysListed(done, k);
    var first := FirstAt(done, FlowKey(done[k].item));
    KeyIsAsset(done[first].item, done[k].item);
  }

  /** The keys come without repeats, in the order in which they are first listed. */
  lemma {:induction false} KeysInOrder(done: seq<Posting>, i: nat, j: nat)
    requires i < j < |Keys(done)|
    ensures FirstAt(done, Keys(done)[i]) < FirstAt(done, Keys(done)[j])
  {
    var n := |done| - 1;
    var before := Keys(done[..n]);
    if j < |before| {
      KeysInOrder(done[..n], i, j);
    } else {
      assert before[i] in before;
    }
  }

  /** Parties come with the larger amounts first, and equal amounts as the API lists them. */
  lemma {:induction false} PartiesInOrder(entries: seq<Entry>, i: nat, j: nat)
    requires i < j < |PartyEnds(entries)|
    ensures var ends := PartyEnds(entries);
      ends[i].amount > ends[j].amount || (ends[i].amount == ends[j].amount && ends[i].who <= ends[j].who)
  {
    SortSorted(entries, Before);
  }

  // ---- The loops ----

  datatype Account = Account(asset: ItemDelta, from: seq<Entry>, to: seq<Entry>)

  /** The map and the order list hold exactly the postings made so far. */
  ghost predicate Tracks(items: map<string, Account>, order: seq<string>, done: seq<Posting>) {
    && order == Keys(done)
    && (forall key :: key in items <==> key in order)
    && forall key :: key in items ==> items[key] == AccountOf(done, key)
  }

  ghost function AccountOf(done: seq<Posting>, key: string): Account
    requires key in Keys(done)
  {
    Account(FirstItem(done, key), Gifts(DeltasOf(done, key)), Receipts(DeltasOf(done, key)))
  }

  lemma {:induction false} OtherKeys(done: seq<Posting>, posting: Posting, key: string)
    requires key in Keys(done)
    ensures key in Keys(done + [posting])
    ensures FirstItem(done + [posting], key) == FirstItem(done, key)
    ensures key != FlowKey(posting.item) ==> DeltasOf(done + [posting], key) == DeltasOf(done, key)
  {
    assert (done + [posting])[..|done|] == done;
  }

  lemma {:induction false} SameKey(done: seq<Posting>, posting: Posting)
    ensures var key := FlowKey(posting.item);
      var s := Signed(posting.who, Number(posting.item.delta));
      && key in Keys(done + [posting])
      && (key !in Keys(done) ==>
            && Keys(done + [posting]) == Keys(done) + [key]
            && FirstItem(done + [posting], key) == posting.item)
      && (key in Keys(done) ==> Keys(done + [posting]) == Keys(done))
      && DeltasOf(done + [posting], key) == DeltasOf(done, key) + [s]
      && Gifts(DeltasOf(done + [posting], key)) == Gifts(DeltasOf(done, key)) + Gift(s)
      && Receipts(DeltasOf(done + [posting], key)) == Receipts(DeltasOf(done, key)) + Receipt(s)
  {
    hide Gift, Receipt;
    assert (done + [posting])[..|done|] == done;
    var key := FlowKey(posting.item);
    var s, ss := Signed(posting.who, Number(posting.item.delta)), DeltasOf(done, key);
    assert DeltasOf(done + [posting], key) == ss + [s];
    assert (ss + [s])[..|ss|] == ss;
  }

  lemma {:induction false} NoDeltas(done: seq<Posting>, key: string)
    requires key !in Keys(done)
    ensures DeltasOf(done, key) == []
  {
    if done != [] { NoDeltas(done[..|done| - 1], key); }
  }

  /** One item change put into the books. */
  method Post(items: map<string, Account>, order: seq<string>, posting: Posting, ghost done: seq<Posting>)
    returns (items': map<string, Account>, order': seq<string>)
    requires Tracks(items, order, done)
    ensures Tracks(items', order', done + [posting])
  {
    hide Keys, FirstItem, DeltasOf, Gifts, Receipts, FlowKey, Number;
    var key := FlowKey(posting.item);
    SameKey(done, posting);
    var account: Account;
    if key in items {
      account, order' := items[key], order;
    } else {
      account, order' := Account(posting.item, [], []), order + [key];
      NoDeltas(done, key);
      assert Gifts([]) == [] && Receipts([]) == [] by { NoEntries(); }
    }
    var delta := Number(posting.item.delta);
    if delta < 0 {
      account := account.(from := account.from + [Entry(posting.who, -delta)]);
    } else if delta > 0 {
      account := account.(to := account.to + [Entry(posting.who, delta)]);
    }
    items' := items[key := account];
    forall k | k in items' ensures k in Keys(done + [posting]) && items'[k] == AccountOf(done + [posting], k) {
      if k in items { OtherKeys(done, posting, k); }
    }
  }

  lemma NoEntries()
    ensures Gifts([]) == [] && Receipts([]) == []
  {
  }

  ghost predicate DeltasRead(items: seq<ItemDelta>) {
    forall j :: 0 <= j < |items| ==> ParseSigned(items[j].delta).Some?
  }

  /** The inner loop: one participant's items. */
  method PostParty(who: nat, deltas: seq<ItemDelta>, items: map<string, Account>, order: seq<string>,
      ghost done: seq<Posting>)
    returns (ok: bool, items': map<string, Account>, order': seq<string>)
    requires Tracks(items, order, done)
    ensures ok <==> DeltasRead(deltas)
    ensures ok ==> Tracks(items', order', done + PostingsOf(who, deltas))
  {
    hide Tracks, ParseSigned;
    items', order' := items, order;
    var j := 0;
    assert done + PostingsOf(who, deltas)[..0] == done;
    while j < |deltas|
      invariant 0 <= j <= |deltas|
      invariant DeltasRead(deltas[..j])
      invariant Tracks(items', order', done + PostingsOf(who, deltas)[..j])
    {
      if ParseSigned(deltas[j].delta).None? { return false, items', order'; }
      items', order' := Post(items', order', Posting(who, deltas[j]), done + PostingsOf(who, deltas)[..j]);
      assert (done + PostingsOf(who, deltas)[..j]) + [Posting(who, deltas[j])] ==
        done + PostingsOf(who, deltas)[..j + 1];
      j := j + 1;
    }
    assert deltas[..j] == deltas && PostingsOf(who, deltas)[..j] == PostingsOf(who, deltas);
    ok := true;
  }

  ghost predicate ReadUpTo(ps: seq<Participant>, i: nat) {
    i <= |ps| && forall k :: 0 <= k < i ==> DeltasRead(ps[k].itemDeltas) && ParseSigned(ps[k].ckbDelta).Some?
  }

  lemma {:induction false} ReadAll(ps: seq<Participant>)
    ensures ReadUpTo(ps, |ps|) <==> ItemsRead(ps) && CkbRead(ps)
  {
    hide ParseSigned;
    if ItemsRead(ps) && CkbRead(ps) {
      forall k | 0 <= k < |ps| ensures DeltasRead(ps[k].itemDeltas) {
      }
    }
  }

  lemma {:induction false} NextParty(ps: seq<Participant>, i: nat)
    requires i < |ps|
    ensures Postings(ps[..i + 1]) == Postings(ps[..i]) + PostingsOf(i, ps[i].itemDeltas)
    ensures var s := Signed(i, Number(ps[i].ckbDelta));
      && CkbDeltas(ps[..i + 1]) == CkbDeltas(ps[..i]) + [s]
      && Gifts(CkbDeltas(ps[..i + 1])) == Gifts(CkbDeltas(ps[..i])) + Gift(s)
      && Receipts(CkbDeltas(ps[..i + 1])) == Receipts(CkbDeltas(ps[..i])) + Receipt(s)
  {
    assert ps[..i + 1][..i] == ps[..i];
    var s, ss := Signed(i, Number(ps[i].ckbDelta)), CkbDeltas(ps[..i]);
    assert CkbDeltas(ps[..i + 1]) == ss + [s];
    assert (ss + [s])[..|ss|] == ss;
  }

  /** The outer loop: every participant's items and CKB change. */
  method Collect(ps: seq<Participant>)
    returns (ok: bool, items: map<string, Account>, order: seq<string>, ckbFrom: seq<Entry>, ckbTo: seq<Entry>)
    ensures ok <==> ItemsRead(ps) && CkbRead(ps)
    ensures ok ==> Tracks(items, order, Postings(ps))
    ensures ok ==> ckbFrom == Gifts(CkbDeltas(ps)) && ckbTo == Receipts(CkbDeltas(ps))
  {
    hide Gifts, Receipts, CkbDeltas, Postings, ParseSigned, ItemsRead, CkbRead, DeltasRead, Keys, DeltasOf, AccountOf;
    items, order, ckbFrom, ckbTo := map[], [], [], [];
    ReadAll(ps);
    var i := 0;
    assert ps[..0] == [];
    NothingPosted();
    while i < |ps|
      invariant 0 <= i <= |ps|
      invariant ReadUpTo(ps, i)
      invariant Tracks(items, order, Postings(ps[..i]))
      invariant ckbFrom == Gifts(CkbDeltas(ps[..i])) && ckbTo == Receipts(CkbDeltas(ps[..i]))
    {
      NextParty(ps, i);
      ok, items, order := PostParty(i, ps[i].itemDeltas, items, order, Postings(ps[..i]));
      if !ok { return; }
      if ParseSigned(ps[i].ckbDelta).None? { ok := false; return; }
      var ckb := Number(ps[i].ckbDelta);
      if ckb < 0 {
        ckbFrom := ckbFrom + [Entry(i, -ckb)];
      } else if ckb > 0 {
        ckbTo := ckbTo + [Entry(i, ckb)];
      }
      i := i + 1;
    }
    assert ps[..i] == ps;
    ok := true;
  }

  lemma {:induction false} NothingPosted()
    ensures Tracks(map[], [], Postings([]))
    ensures Gifts(CkbDeltas([])) == [] && Receipts(CkbDeltas([])) == []
  {
    assert Postings([]) == [] && CkbDeltas([]) == [];
  }

  /** The flow drawn from an item's account. */
  function FlowOf(key: string, account: Account): Flow {
    var from, to := PartyEnds(account.from), PartyEnds(account.to);
    var diff := Sum(to) - Sum(from);
    var from' := if diff > 0 then [Minted(diff)] + from else from;
    var to' := if diff < 0 then to + [Burnt(-diff)] else to;
    Flow(key, Item(account.asset), from', to', Sum(from'))
  }

  lemma {:induction false} FlowOfAccount(done: seq<Posting>, key: string)
    requires key in Keys(done)
    ensures FlowOf(key, AccountOf(done, key)) == ItemFlow(done, key)
  {
    hide Sum, SumFor, NetOf, PartyEnds, Gifts, Receipts, Net, DeltasOf, Keys, FirstItem, ItemFrom, ItemTo, FlowKey;
    var ss := DeltasOf(done, key);
    PartiesBalance(ss, 0);
    WithTerminals(ss, PartyEnds(Gifts(ss)), PartyEnds(Receipts(ss)), Net(ss));
  }

  lemma {:induction false} WithTerminals(ss: seq<Signed>, from: seq<FlowEnd>, to: seq<FlowEnd>, diff: int)
    requires from == PartyEnds(Gifts(ss)) && to == PartyEnds(Receipts(ss)) && diff == Net(ss)
    ensures (if diff > 0 then [Minted(diff)] + from else from) == ItemFrom(ss)
    ensures (if diff < 0 then to + [Burnt(-diff)] else to) == ItemTo(ss)
  {
    hide PartyEnds, Gifts, Receipts, Net;
    assert [] + from == from && to + [] == to;
  }

  method MakeItemFlows(items: map<string, Account>, order: seq<string>, ghost done: seq<Posting>)
    returns (flows: seq<Flow>)
    requires Tracks(items, order, done)
    ensures flows == ItemFlows(done)
  {
    hide Keys, AccountOf, FlowOf, ItemFlow;
    flows := seq(|order|, i requires 0 <= i < |order| && order[i] in items => FlowOf(order[i], items[order[i]]));
    forall i | 0 <= i < |order| ensures flows[i] == ItemFlow(done, Keys(done)[i]) {
      FlowOfAccount(done, order[i]);
    }
  }

  ghost predicate CkbAccepted(ss: seq<Signed>, fee: string, compensation: Option<int>, genesis: bool) {
    && TermsOk(fee, compensation)
    && var surplus := Surplus(ss, Number(fee), compensation);
       if genesis then surplus > 0 else surplus == 0
  }

  /** The CKB flow with its terminals. */
  method MakeCkbFlow(ckbFrom: seq<Entry>, ckbTo: seq<Entry>, fee: string, compensation: Option<int>, genesis: bool,
      ghost ss: seq<Signed>)
    returns (r: Result<seq<Flow>>)
    requires ckbFrom == Gifts(ss) && ckbTo == Receipts(ss)
    ensures r.Ok? <==> CkbAccepted(ss, fee, compensation, genesis)
    ensures r.Ok? ==> r.value == CkbFlows(CkbFrom(ss, Number(fee), compensation, genesis), CkbTo(ss, Number(fee)))
  {
    hide Sum, PartyEnds, Gifts, Receipts, Net, SumFor, NetOf, ParseSigned;
    var from, to := PartyEnds(ckbFrom), PartyEnds(ckbTo);
    if ParseSigned(fee).None? || Number(fee) < 0 { return Err; }
    if Number(fee) > 0 { to := to + [Miner(Number(fee))]; }
    if compensation.Some? {
      if compensation.value <= 0 { return Err; }
      from := [Compensation(compensation.value)] + from;
    }
    assert to == CkbTo(ss, Number(fee));
    assert from == CkbFrom(ss, Number(fee), compensation, false);
    CkbSidesSum(ss, Number(fee), compensation, false, 0);
    CkbSidesSum(ss, Number(fee), compensation, true, 0);
    if genesis {
      var issued := Sum(to) - Sum(from);
      if issued <= 0 { return Err; }
      from := [Genesis(issued)] + from;
      assert from == CkbFrom(ss, Number(fee), compensation, true);
    }
    if |from| > 0 || |to| > 0 {
      if Sum(from) != Sum(to) { return Err; }
      return Ok([Flow("ckb", Ckb, from, to, Sum(from))]);
    }
    r := Ok([]);
  }

  method TxFlows(ps: seq<Participant>, fee: string, compensation: Option<int>, genesis: bool)
    returns (r: Result<seq<Flow>>)
    ensures r.Ok? <==> FlowsAccepted(ps, fee, compensation, genesis)
    ensures r.Ok? ==> r.value == Flows(ps, Number(fee), compensation, genesis) && AllConserve(ps, r.value)
  {
    hide Gifts, Receipts, Postings, CkbDeltas, ItemFlows, CkbFlows, CkbFrom, CkbTo, Tracks,
      ItemsRead, CkbRead, ParseSigned, AllConserve, TermsOk, Surplus;
    var ok, items, order, ckbFrom, ckbTo := Collect(ps);
    if !ok { return Err; }
    var flows := MakeItemFlows(items, order, Postings(ps));
    var ckb := MakeCkbFlow(ckbFrom, ckbTo, fee, compensation, genesis, CkbDeltas(ps));
    if ckb.Err? { return Err; }
    FlowsConserve(ps, fee, compensation, genesis);
    r := Ok(flows + ckb.value);
  }

  // ---- The Net row of the balance changes, and its agreement with the flows ----

  datatype Note = FeeNote | CompensationNote | GenesisNote

  datatype NetRow = NetRow(ckb: int, occupied: int, note: Note)

  function UsedTotal(ps: seq<Participant>): int {
    if ps == [] then 0 else UsedTotal(ps[..|ps| - 1]) + Number(ps[|ps| - 1].usedDelta)
  }

  /** Exactly when `balanceNet` returns. */
  predicate NetAccepted(ps: seq<Participant>, fee: string, compensation: Option<int>, genesis: bool) {
    && CkbRead(ps) && UsedRead(ps)
    && (!genesis ==> ParseSigned(fee).Some? && Net(CkbDeltas(ps)) == Compensated(compensation) - Number(fee))
  }

  lemma {:induction false} NextNet(ps: seq<Participant>, i: nat)
    requires i < |ps|
    ensures Net(CkbDeltas(ps[..i + 1])) == Net(CkbDeltas(ps[..i])) + Number(ps[i].ckbDelta)
    ensures UsedTotal(ps[..i + 1]) == UsedTotal(ps[..i]) + Number(ps[i].usedDelta)
  {
    assert ps[..i + 1][..i] == ps[..i];
    var s, ss := Signed(i, Number(ps[i].ckbDelta)), CkbDeltas(ps[..i]);
    assert CkbDeltas(ps[..i + 1]) == ss + [s];
    assert (ss + [s])[..|ss|] == ss;
  }

  method BalanceNet(ps: seq<Participant>, fee: string, compensation: Option<int>, genesis: bool)
    returns (r: Result<NetRow>)
    ensures r.Ok? <==> NetAccepted(ps, fee, compensation, genesis)
    ensures r.Ok? ==>
      && r.value.ckb == Net(CkbDeltas(ps)) && r.value.occupied == UsedTotal(ps)
      && r.value.note == if genesis then GenesisNote else if compensation.None? then FeeNote else CompensationNote
  {
    hide ParseSigned, Net, CkbDeltas, UsedTotal;
    var ckb, occupied := 0, 0;
    var i := 0;
    assert ps[..0] == [];
    assert Net(CkbDeltas([])) == 0 && UsedTotal([]) == 0 by { NoChanges(); }
    while i < |ps|
      invariant 0 <= i <= |ps|
      invariant CkbRead(ps[..i]) && UsedRead(ps[..i])
      invariant ckb == Net(CkbDeltas(ps[..i])) && occupied == UsedTotal(ps[..i])
    {
      if ParseSigned(ps[i].ckbDelta).None? || ParseSigned(ps[i].usedDelta).None? { return Err; }
      NextNet(ps, i);
      ckb, occupied := ckb + Number(ps[i].ckbDelta), occupied + Number(ps[i].usedDelta);
      i := i + 1;
    }
    assert ps[..i] == ps;
    if genesis { return Ok(NetRow(ckb, occupied, GenesisNote)); }
    if ParseSigned(fee).None? { return Err; }
    var expected := Compensated(compensation) - Number(fee);
    if ckb != expected { return Err; }
    r := Ok(NetRow(ckb, occupied, if compensation.None? then FeeNote else CompensationNote));
  }

  lemma NoChanges()
    ensures Net(CkbDeltas([])) == 0 && UsedTotal([]) == 0
  {
  }

  /**
   The two checks against each other, on every input whose occupied changes are numbers: the flows ask for what
   the Net row asks for, and besides for readable items, a fee that is not negative, a compensation that is
   positive and, in a genesis transaction, something issued.
   */
  lemma {:induction false} ChecksCompared(ps: seq<Participant>, fee: string, compensation: Option<int>, genesis: bool)
    requires UsedRead(ps)
    ensures FlowsAccepted(ps, fee, compensation, genesis) <==>
      && NetAccepted(ps, fee, compensation, genesis) && ItemsRead(ps) && TermsOk(fee, compensation)
      && (genesis ==> Surplus(CkbDeltas(ps), Number(fee), compensation) > 0)
  {
    hide ParseSigned, ItemsRead, CkbRead, UsedRead, Net, CkbDeltas;
    assert Number(fee) >= 0 || Number(fee) < 0;
  }

  /**
   On readable input outside genesis, with a fee and a compensation that can be, the two accept the same transactions.
   */
  lemma {:induction false} ChecksAgree(ps: seq<Participant>, fee: string, compensation: Option<int>)
    requires ItemsRead(ps) && UsedRead(ps) && TermsOk(fee, compensation)
    ensures FlowsAccepted(ps, fee, compensation, false) <==> NetAccepted(ps, fee, compensation, false)
  {
    ChecksCompared(ps, fee, compensation, false);
  }

  // ---- Folding a side ----

  const PARTICIPANT_LIMIT := 6

  const SHOWN_WHEN_FOLDED := PARTICIPANT_LIMIT - 1

  /** Where an end belongs on its side: giving terminals, parties, receiving terminals. */
  function Rank(end: FlowEnd): nat {
    match end
    case Compensation(_) => 0
    case Genesis(_) => 0
    case Minted(_) => 0
    case Party(_, _) => 1
    case Miner(_) => 2
    case Burnt(_) => 2
    case More(_, _, _) => 3
  }

  function Keep(ends: seq<FlowEnd>, rank: nat): (kept: seq<FlowEnd>)
    ensures forall i :: 0 <= i < |kept| ==> Rank(kept[i]) == rank && kept[i] in ends
  {
    if ends == [] then []
    else Keep(ends[..|ends| - 1], rank) + if Rank(ends[|ends| - 1]) == rank then [ends[|ends| - 1]] else []
  }

  function FoldEnds(ends: seq<FlowEnd>, expanded: bool): seq<FlowEnd> {
    var parties := Keep(ends, 1);
    if expanded || |parties| <= PARTICIPANT_LIMIT then ends
    else
      var rest := parties[SHOWN_WHEN_FOLDED..];
      Keep(ends, 0) + parties[..SHOWN_WHEN_FOLDED] + [More(|rest|, Sum(rest), rest)] + Keep(ends, 2)
  }

  /** A folded side with its `more` end replaced by what it holds. */
  function Unfold(ends: seq<FlowEnd>): seq<FlowEnd> {
    if ends == [] then []
    else
      var n := |ends| - 1;
      Unfold(ends[..n]) + Opened(ends[n])
  }

  ghost predicate NoMore(ends: seq<FlowEnd>) { forall i :: 0 <= i < |ends| ==> !ends[i].More? }

  /** No end stands before one that belongs earlier. */
  ghost predicate InPlace(ends: seq<FlowEnd>) {
    forall i, j :: 0 <= i < j < |ends| ==> Rank(ends[i]) <= Rank(ends[j])
  }

  function Opened(end: FlowEnd): seq<FlowEnd> { if end.More? then end.ends else [end] }

  lemma {:induction false} UnfoldStep(ends: seq<FlowEnd>, end: FlowEnd)
    ensures Unfold(ends + [end]) == Unfold(ends) + Opened(end)
  {
    assert (ends + [end])[..|ends|] == ends;
  }

  lemma {:induction false} UnfoldConcat(a: seq<FlowEnd>, b: seq<FlowEnd>)
    ensures Unfold(a + b) == Unfold(a) + Unfold(b)
    decreases |b|
  {
    hide Unfold, Opened;
    if b == [] {
      assert a + b == a;
      UnfoldNothing();
    } else {
      var n := |b| - 1;
      UnfoldConcat(a, b[..n]);
      UnfoldStep(a + b[..n], b[n]);
      UnfoldStep(b[..n], b[n]);
      assert b[..n] + [b[n]] == b;
      assert a + b[..n] + [b[n]] == a + b;
    }
  }

  lemma UnfoldNothing()
    ensures Unfold([]) == []
  {
  }

  lemma {:induction false} UnfoldPlain(a: seq<FlowEnd>)
    requires NoMore(a)
    ensures Unfold(a) == a
  {
    if a != [] {
      var n := |a| - 1;
      UnfoldPlain(a[..n]);
      assert a == a[..n] + [a[n]];
    }
  }

  lemma {:induction false} KeepNone(ends: seq<FlowEnd>, rank: nat)
    requires forall i :: 0 <= i < |ends| ==> Rank(ends[i]) != rank
    ensures Keep(ends, rank) == []
  {
    if ends != [] { KeepNone(ends[..|ends| - 1], rank); }
  }

  function Regrouped(ends: seq<FlowEnd>): seq<FlowEnd> { Keep(ends, 0) + Keep(ends, 1) + Keep(ends, 2) }

  lemma {:induction false} RegroupedInPlace(ends: seq<FlowEnd>)
    ensures InPlace(Regrouped(ends))
  {
    hide Keep, Rank;
    var a, b, c := Keep(ends, 0), Keep(ends, 1), Keep(ends, 2);
    var all := Regrouped(ends);
    assert forall i :: 0 <= i < |all| ==> Rank(all[i]) == if i < |a| then 0 else if i < |a| + |b| then 1 else 2;
  }

  lemma {:induction false} KeepStep(ends: seq<FlowEnd>, end: FlowEnd, rank: nat)
    ensures Keep(ends + [end], rank) == Keep(ends, rank) + if Rank(end) == rank then [end] else []
  {
    assert (ends + [end])[..|ends|] == ends;
  }

  /** Three groups with one more element at the end of the last group that is not empty, or after it. */
  lemma {:induction false} OneMoreInGroup(a: seq<FlowEnd>, b: seq<FlowEnd>, c: seq<FlowEnd>, last: FlowEnd, rank: nat)
    requires rank <= 2 && (rank < 2 ==> c == []) && (rank < 1 ==> b == [])
    ensures (a + if rank == 0 then [last] else []) + (b + if rank == 1 then [last] else [])
      + (c + if rank == 2 then [last] else [])
         == a + b + c + [last]
  {
  }

  lemma {:induction false} NoneAbove(front: seq<FlowEnd>, top: nat, rank: nat)
    requires top < rank && forall i :: 0 <= i < |front| ==> Rank(front[i]) <= top
    ensures Keep(front, rank) == []
  {
    hide Rank, Keep;
    KeepNone(front, rank);
  }

  lemma {:induction false} InPlaceFront(ends: seq<FlowEnd>)
    requires NoMore(ends) && InPlace(ends) && ends != []
    ensures var n := |ends| - 1;
      && NoMore(ends[..n]) && InPlace(ends[..n]) && Rank(ends[n]) <= 2
      && forall i :: 0 <= i < n ==> Rank(ends[..n][i]) <= Rank(ends[n])
  {
  }

  lemma {:induction false} InPlaceRegrouped(ends: seq<FlowEnd>)
    requires NoMore(ends) && InPlace(ends)
    ensures Regrouped(ends) == ends
  {
    hide Keep, Rank, InPlace, NoMore;
    if ends == [] {
      KeepNone(ends, 0);
      KeepNone(ends, 1);
      KeepNone(ends, 2);
    } else {
      var n := |ends| - 1;
      var front, last := ends[..n], ends[n];
      var rank := Rank(last);
      InPlaceFront(ends);
      InPlaceRegrouped(front);
      assert ends == front + [last];
      KeepStep(front, last, 0);
      KeepStep(front, last, 1);
      KeepStep(front, last, 2);
      if rank < 2 { NoneAbove(front, rank, 2); }
      if rank < 1 { NoneAbove(front, rank, 1); }
      OneMoreInGroup(Keep(front, 0), Keep(front, 1), Keep(front, 2), last, rank);
    }
  }

  lemma {:induction false} UnfoldFolded(ends: seq<FlowEnd>)
    requires NoMore(ends) && |Keep(ends, 1)| > PARTICIPANT_LIMIT
    ensures Unfold(FoldEnds(ends, false)) == Regrouped(ends)
  {
    hide Keep, Unfold, Sum;
    var parties := Keep(ends, 1);
    var lead, shown, rest, trail := Keep(ends, 0), parties[..SHOWN_WHEN_FOLDED], parties[SHOWN_WHEN_FOLDED..],
      Keep(ends, 2);
    var more := [More(|rest|, Sum(rest), rest)];
    UnfoldConcat(lead + shown + more, trail);
    UnfoldConcat(lead + shown, more);
    UnfoldConcat(lead, shown);
    UnfoldPlain(lead);
    UnfoldPlain(shown);
    UnfoldPlain(trail);
    UnfoldMore(|rest|, Sum(rest), rest);
    assert shown + rest == parties;
    assert lead + shown + rest + trail == lead + parties + trail;
  }

  lemma UnfoldMore(count: nat, amount: int, ends: seq<FlowEnd>)
    ensures Unfold([More(count, amount, ends)]) == ends
  {
    assert Unfold([]) == [];
  }

  /**
   Opening the fold gives back the side it was made from exactly when nothing was folded or every end already stood
   in its place.
   */
  lemma {:induction false} FoldThenUnfold(ends: seq<FlowEnd>, expanded: bool)
    requires NoMore(ends)
    ensures Unfold(FoldEnds(ends, expanded)) == ends
      <==> expanded || |Keep(ends, 1)| <= PARTICIPANT_LIMIT || InPlace(ends)
  {
    hide Keep, Unfold, Rank, InPlace, Regrouped, Sum;
    if expanded || |Keep(ends, 1)| <= PARTICIPANT_LIMIT {
      UnfoldPlain(ends);
    } else {
      UnfoldFolded(ends);
      RegroupedInPlace(ends);
      if InPlace(ends) { InPlaceRegrouped(ends); }
    }
  }

  /** A party put before a terminal that gives: the fold moves it. */
  lemma FoldMovesMisplaced()
    ensures var ends := seq(7, _ => Party(0, 1)) + [Minted(1)];
      NoMore(ends) && Unfold(FoldEnds(ends, false)) != ends
  {
    var ends := seq(7, _ => Party(0, 1)) + [Minted(1)];
    assert Rank(ends[0]) == 1 && Rank(ends[7]) == 0;
    SevenParties(7);
    assert ends[..7] == seq(7, _ => Party(0, 1));
    FoldThenUnfold(ends, false);
  }

  lemma {:induction false} SevenParties(n: nat)
    ensures |Keep(seq(n, _ => Party(0, 1)), 1)| == n
  {
    if n > 0 {
      SevenParties(n - 1);
      assert seq(n, _ => Party(0, 1))[..n - 1] == seq(n - 1, _ => Party(0, 1));
    }
  }

  /** Every side of every flow has its ends in place, and none of them is a fold. */
  lemma {:induction false} SidesInPlace(ps: seq<Participant>, fee: int, compensation: Option<int>, genesis: bool,
      i: nat)
    requires i < |Flows(ps, fee, compensation, genesis)|
    ensures var flow := Flows(ps, fee, compensation, genesis)[i];
      NoMore(flow.from) && InPlace(flow.from) && NoMore(flow.to) && InPlace(flow.to)
  {
    hide Sum, PartyEnds, Gifts, Receipts, Net, Keys, DeltasOf, Postings, CkbDeltas, FirstItem;
    var flows, done := Flows(ps, fee, compensation, genesis), Postings(ps);
    if i < |Keys(done)| {
      var ss := DeltasOf(done, Keys(done)[i]);
      assert flows[i] == ItemFlow(done, Keys(done)[i]);
      OnlyParties(Gifts(ss));
      OnlyParties(Receipts(ss));
    } else {
      OnlyParties(Gifts(CkbDeltas(ps)));
      OnlyParties(Receipts(CkbDeltas(ps)));
    }
  }

  lemma {:induction false} OnlyParties(entries: seq<Entry>)
    ensures forall i :: 0 <= i < |PartyEnds(entries)| ==> PartyEnds(entries)[i].Party?
  {
    assert forall i :: 0 <= i < |PartyEnds(entries)| ==> AsEnds(Sort(entries, Before))[i].Party?;
  }

  /** So opening the fold of any side the flows have gives that side back. */
  lemma {:induction false} FlowsUnfold(ps: seq<Participant>, fee: int, compensation: Option<int>, genesis: bool, i: nat,
      expanded: bool)
    requires i < |Flows(ps, fee, compensation, genesis)|
    ensures var flow := Flows(ps, fee, compensation, genesis)[i];
      Unfold(FoldEnds(flow.from, expanded)) == flow.from && Unfold(FoldEnds(flow.to, expanded)) == flow.to
  {
    hide Flows, Unfold, FoldEnds, Keep, InPlace, NoMore;
    SidesInPlace(ps, fee, compensation, genesis, i);
    var flow := Flows(ps, fee, compensation, genesis)[i];
    FoldThenUnfold(flow.from, expanded);
    FoldThenUnfold(flow.to, expanded);
  }

  /** The parties a list of ends stands for. */
  function PartyCount(ends: seq<FlowEnd>): nat {
    if ends == [] then 0
    else
      var n := |ends| - 1;
      PartyCount(ends[..n]) + if ends[n].More? then ends[n].count else if ends[n].Party? then 1 else 0
  }

  lemma {:induction false} TotalsConcat(a: seq<FlowEnd>, b: seq<FlowEnd>)
    ensures Sum(a + b) == Sum(a) + Sum(b) && PartyCount(a + b) == PartyCount(a) + PartyCount(b)
    decreases |b|
  {
    if b == [] {
      assert a + b == a;
    } else {
      var n := |b| - 1;
      TotalsConcat(a, b[..n]);
      assert (a + b)[..|a| + n] == a + b[..n];
    }
  }

  lemma NoTotals()
    ensures Sum([]) == 0 && PartyCount([]) == 0
  {
  }

  lemma {:induction false} TotalsStep(ends: seq<FlowEnd>, end: FlowEnd)
    requires !end.More?
    ensures Sum(ends + [end]) == Sum(ends) + end.amount
    ensures PartyCount(ends + [end]) == PartyCount(ends) + if end.Party? then 1 else 0
  {
    assert (ends + [end])[..|ends|] == ends;
  }

  lemma {:induction false} RegroupedTotals(ends: seq<FlowEnd>)
    requires NoMore(ends)
    ensures Sum(Keep(ends, 0)) + Sum(Keep(ends, 1)) + Sum(Keep(ends, 2)) == Sum(ends)
    ensures PartyCount(Keep(ends, 0)) == PartyCount(Keep(ends, 2)) == 0
    ensures PartyCount(Keep(ends, 1)) == PartyCount(ends) == |Keep(ends, 1)|
  {
    hide Keep, Sum, PartyCount;
    NoTotals();
    if ends == [] {
      KeepNone(ends, 0);
      KeepNone(ends, 1);
      KeepNone(ends, 2);
    } else {
      var n := |ends| - 1;
      var front, last := ends[..n], ends[n];
      RegroupedTotals(front);
      assert ends == front + [last];
      TotalsStep(front, last);
      TotalsStep(Keep(front, Rank(last)), last);
      KeepStep(front, last, 0);
      KeepStep(front, last, 1);
      KeepStep(front, last, 2);
      assert forall rank: nat :: Keep(front, rank) + [] == Keep(front, rank);
    }
  }

  lemma {:induction false} CountOfParties(ends: seq<FlowEnd>)
    requires forall i :: 0 <= i < |ends| ==> Rank(ends[i]) == 1
    ensures PartyCount(ends) == |ends|
  {
    if ends != [] { CountOfParties(ends[..|ends| - 1]); }
  }

  /** Folding changes neither what a side comes to nor how many parties it stands for. */
  lemma {:induction false} FoldKeepsTotals(ends: seq<FlowEnd>, expanded: bool)
    requires NoMore(ends)
    ensures Sum(FoldEnds(ends, expanded)) == Sum(ends)
    ensures PartyCount(FoldEnds(ends, expanded)) == PartyCount(ends)
  {
    hide Keep, Sum, PartyCount;
    var parties := Keep(ends, 1);
    if !expanded && |parties| > PARTICIPANT_LIMIT {
      var lead, shown, rest, trail := Keep(ends, 0), parties[..SHOWN_WHEN_FOLDED], parties[SHOWN_WHEN_FOLDED..],
        Keep(ends, 2);
      var more := [More(|rest|, Sum(rest), rest)];
      TotalsConcat(lead + shown + more, trail);
      TotalsConcat(lead + shown, more);
      TotalsConcat(lead, shown);
      assert shown + rest == parties;
      TotalsConcat(shown, rest);
      CountOfParties(rest);
      RegroupedTotals(ends);
      MoreTotals(|rest|, Sum(rest), rest);
    }
  }

  lemma MoreTotals(count: nat, amount: int, ends: seq<FlowEnd>)
    ensures Sum([More(count, amount, ends)]) == amount && PartyCount([More(count, amount, ends)]) == count
  {
    assert Sum([]) == 0 && PartyCount([]) == 0;
  }

  /**
   A folded side names five parties between its giving and its receiving terminals, and no party in the `more` end
   after them holds more than any of the five.
   */
  ghost predicate ShowsLargest(ends: seq<FlowEnd>) {
    var folded, lead, parties := FoldEnds(ends, false), |Keep(ends, 0)|, |Keep(ends, 1)|;
    parties > 6 ==>
      && |folded| == lead + 6 + |Keep(ends, 2)|
      && (forall i :: lead <= i < lead + 5 ==> folded[i].Party?)
      && folded[lead + 5].More?
      && var more := folded[lead + 5];
         && more.count == |more.ends| == parties - 5
         && forall i, j :: lead <= i < lead + 5 && 0 <= j < |more.ends| ==>
           folded[i].amount >= more.ends[j].amount
  }

  lemma {:induction false} KeepConcat(a: seq<FlowEnd>, b: seq<FlowEnd>, rank: nat)
    ensures Keep(a + b, rank) == Keep(a, rank) + Keep(b, rank)
    decreases |b|
  {
    hide Keep;
    if b == [] {
      KeepNone(b, rank);
      assert a + b == a;
    } else {
      var n := |b| - 1;
      KeepConcat(a, b[..n], rank);
      KeepStep(b[..n], b[n], rank);
      KeepStep(a + b[..n], b[n], rank);
      assert b[..n] + [b[n]] == b && a + b[..n] + [b[n]] == a + b;
    }
  }

  ghost predicate LargestFirst(parties: seq<FlowEnd>) {
    forall i, j :: 0 <= i < j < |parties| ==> parties[i].amount >= parties[j].amount
  }

  lemma {:induction false} PlacesInFold(lead: seq<FlowEnd>, shown: seq<FlowEnd>, more: FlowEnd, trail: seq<FlowEnd>)
    ensures var folded := lead + shown + [more] + trail;
      && |folded| == |lead| + |shown| + 1 + |trail| && folded[|lead| + |shown|] == more
      && forall i :: |lead| <= i < |lead| + |shown| ==> folded[i] == shown[i - |lead|]
  {
  }

  lemma {:induction false} SortedShowsLargest(ends: seq<FlowEnd>)
    requires LargestFirst(Keep(ends, 1))
    ensures ShowsLargest(ends)
  {
    hide Sum, Keep, Rank;
    var parties := Keep(ends, 1);
    if |parties| > PARTICIPANT_LIMIT {
      var shown, rest := parties[..SHOWN_WHEN_FOLDED], parties[SHOWN_WHEN_FOLDED..];
      PlacesInFold(Keep(ends, 0), shown, More(|rest|, Sum(rest), rest), Keep(ends, 2));
      assert forall i :: 0 <= i < |shown| ==> shown[i].Party? by { PartiesAreParties(ends); }
      assert forall i, j :: 0 <= i < |shown| && 0 <= j < |rest| ==> shown[i].amount >= rest[j].amount;
    }
  }

  lemma {:induction false} PartiesAreParties(ends: seq<FlowEnd>)
    ensures forall i :: 0 <= i < |Keep(ends, 1)| ==> Keep(ends, 1)[i].Party?
  {
    hide Keep;
    assert forall i :: 0 <= i < |Keep(ends, 1)| ==> Rank(Keep(ends, 1)[i]) == 1;
  }

  /** Terminals around sorted parties. */
  lemma {:induction false} SideShowsLargest(lead: seq<FlowEnd>, entries: seq<Entry>, trail: seq<FlowEnd>)
    requires forall i :: 0 <= i < |lead| ==> Rank(lead[i]) != 1
    requires forall i :: 0 <= i < |trail| ==> Rank(trail[i]) != 1
    ensures ShowsLargest(lead + PartyEnds(entries) + trail)
  {
    hide Keep, PartyEnds, ShowsLargest;
    var parties := PartyEnds(entries);
    var ends := lead + parties + trail;
    KeepConcat(lead + parties, trail, 1);
    KeepConcat(lead, parties, 1);
    KeepNone(lead, 1);
    KeepNone(trail, 1);
    OnlyParties(entries);
    KeepAll(parties, 1);
    assert Keep(ends, 1) == parties;
    forall i, j | 0 <= i < j < |parties|
      ensures parties[i].amount >= parties[j].amount { PartiesInOrder(entries, i, j); }
    SortedShowsLargest(ends);
  }

  /** Every side of every flow, its terminals included, shows its five largest parties when it is folded. */
  lemma {:induction false} FoldShowsLargest(ps: seq<Participant>, fee: int, compensation: Option<int>, genesis: bool,
      i: nat)
    requires i < |Flows(ps, fee, compensation, genesis)|
    ensures var flow := Flows(ps, fee, compensation, genesis)[i]; ShowsLargest(flow.from) && ShowsLargest(flow.to)
  {
    hide Sum, PartyEnds, Gifts, Receipts, Net, Keys, DeltasOf, Postings, CkbDeltas, FirstItem, ShowsLargest, Surplus;
    var flows, done := Flows(ps, fee, compensation, genesis), Postings(ps);
    if i < |Keys(done)| {
      assert flows[i] == ItemFlow(done, Keys(done)[i]);
      ItemShowsLargest(DeltasOf(done, Keys(done)[i]));
    } else {
      CkbShowsLargest(CkbDeltas(ps), fee, compensation, genesis);
    }
  }

  lemma {:induction false} ItemShowsLargest(ss: seq<Signed>)
    ensures ShowsLargest(ItemFrom(ss)) && ShowsLargest(ItemTo(ss))
  {
    hide PartyEnds, Gifts, Receipts, Net, ShowsLargest;
    var lead := if Net(ss) > 0 then [Minted(Net(ss))] else [];
    var trail := if Net(ss) < 0 then [Burnt(-Net(ss))] else [];
    SideShowsLargest(lead, Gifts(ss), []);
    SideShowsLargest([], Receipts(ss), trail);
    assert lead + PartyEnds(Gifts(ss)) + [] == ItemFrom(ss);
    assert [] + PartyEnds(Receipts(ss)) + trail == ItemTo(ss);
  }

  lemma {:induction false} CkbShowsLargest(ss: seq<Signed>, fee: int, compensation: Option<int>, genesis: bool)
    ensures ShowsLargest(CkbFrom(ss, fee, compensation, genesis)) && ShowsLargest(CkbTo(ss, fee))
  {
    hide PartyEnds, Gifts, Receipts, Net, ShowsLargest, Surplus;
    var lead := (if genesis then [Genesis(Surplus(ss, fee, compensation))] else [])
      + if compensation.Some? then [Compensation(compensation.value)] else [];
    var trail := if fee > 0 then [Miner(fee)] else [];
    SideShowsLargest(lead, Gifts(ss), []);
    SideShowsLargest([], Receipts(ss), trail);
    assert lead + PartyEnds(Gifts(ss)) + [] == CkbFrom(ss, fee, compensation, genesis);
    assert [] + PartyEnds(Receipts(ss)) + trail == CkbTo(ss, fee);
  }

  lemma {:induction false} KeepAll(ends: seq<FlowEnd>, rank: nat)
    requires forall i :: 0 <= i < |ends| ==> Rank(ends[i]) == rank
    ensures Keep(ends, rank) == ends
  {
    hide Keep, Rank;
    if ends == [] {
      KeepNone(ends, rank);
    } else {
      var n := |ends| - 1;
      KeepAll(ends[..n], rank);
      KeepStep(ends[..n], ends[n], rank);
      assert ends == ends[..n] + [ends[n]];
    }
  }
}
