/** The seller's side of a transaction in its ten modes, and the deposit lock that all its sessions
    share (seller_tx.go and contract.go). Money is in int64, as in the code.

    What the contract, the buyer and the proof library answer are inputs of each step. Reading the
    deposit, comparing and locking is one step. */
module Deposit {
  import opened Words

  type Int64 = x: int | -TWO_TO_63 <= x < TWO_TO_63

  /** int64 arithmetic keeps the low 64 bits. */
  function Wrap(x: int): Int64 {
    (x + TWO_TO_63) % TWO_TO_64 - TWO_TO_63
  }

  lemma WrapExact(x: int)
    ensures Wrap(x) == x <==> -TWO_TO_63 <= x < TWO_TO_63
  {
  }

  lemma WrapAdd(a: int, b: int)
    ensures Wrap(Wrap(a) + b) == Wrap(a + b)
  {
  }

  const UNDEPOSIT_PERIOD := 8 * 60 * 60
  const SAFETY_MARGIN := 600

  /** What the contract says about the buyer's deposit. */
  datatype Funds = Funds(value: Int64, stat: int, unDepositAt: int)

  /** calcuDeposit, given the lock and the deposit just read. */
  predicate Grants(value: Int64, lock: Int64, funds: Funds, now: int) {
    && Wrap(value + lock) <= funds.value
    && funds.stat != 1
    && !(funds.stat == 2 && now + SAFETY_MARGIN > funds.unDepositAt + UNDEPOSIT_PERIOD)
  }

  /** checkDeposit, the second look before the secret goes out. */
  predicate StillCovers(value: Int64, funds: Funds, now: int) {
    && funds.value >= value
    && !(funds.unDepositAt != 0 && funds.unDepositAt + UNDEPOSIT_PERIOD < now + SAFETY_MARGIN && funds.stat == 1)
  }

  // ---------- The flow of one session ----------

  datatype Mode =
    | PlainComplaint | PlainOtComplaint | PlainAtomicSwap | PlainAtomicSwapVc
    | TableComplaint | TableOtComplaint | TableAtomicSwap | TableAtomicSwapVc | TableVrf | TableOtVrf
  {
    predicate Ot() { PlainOtComplaint? || TableOtComplaint? || TableOtVrf? }
    predicate Vrf() { TableVrf? || TableOtVrf? }
  }

  datatype Stage =
    | ReceiveNegoRequest | MakeNegoResponse | MakeNegoRequest | SendNegoResponse | ReceiveNegoResponse | DealNegoResponse
    | ReceiveRequest | CountRequest | LockDeposit | VerifyRequest | SendResponse | ReceiveReceipt
    | ComparePrice | VerifyReceipt | CheckExpiry | CheckDeposit | SubmitSecret | ReadSecret

  const NEGOTIATION: seq<Stage> :=
    [ReceiveNegoRequest, MakeNegoResponse, MakeNegoRequest, SendNegoResponse, ReceiveNegoResponse, DealNegoResponse]

  /** Up to the lock and the request. A query mode locks first, the others when they know the count. */
  function Opening(m: Mode): seq<Stage> {
    var nego := if m.Ot() then NEGOTIATION else [];
    if m.Vrf() then [LockDeposit] + nego + [ReceiveRequest] else nego + [ReceiveRequest, CountRequest, LockDeposit]
  }

  const EXCHANGE: seq<Stage> := [VerifyRequest, SendResponse, ReceiveReceipt, ComparePrice, VerifyReceipt, CheckExpiry]

  /** Only a plain complaint does without a second look at the deposit. */
  function Closing(m: Mode): seq<Stage> {
    (if m.PlainComplaint? then [] else [CheckDeposit]) + [SubmitSecret, ReadSecret]
  }

  /** The steps of a mode, in order. */
  function Flow(m: Mode): seq<Stage> { Opening(m) + EXCHANGE + Closing(m) }

  type Pair = nat

  /** A session: the fields of its transaction, how far its flow is, and a record of what it did. */
  datatype Session = Session(
    mode: Mode,
    pair: Pair,
    unitPrice: Int64,
    count: Int64,
    price: Int64,
    receiptPrice: Int64,
    expireAt: int,
    pc: nat,
    ended: bool,
    grants: nat,
    releases: nat,
    receiptVerified: bool,
    checkedAt: int,
    secondLook: bool)
  {
    predicate Holds() { grants > releases }
  }

  /** What reached the contract. */
  datatype Submission = Submission(
    session: nat, price: Int64, signedPrice: Int64, receiptPrice: Int64, expireAt: int,
    locked: bool, receiptVerified: bool, checkedAt: int, secondLook: bool)

  /** The answers a step gets from outside; `ok` stands for everything that has no other outcome. */
  datatype Input = Input(ok: bool, count: Int64, funds: Funds, now: int, receiptPrice: Int64, expireAt: int, signatureOk: bool)

  datatype Seller = Seller(sessions: seq<Session>, locks: map<Pair, Int64>, submissions: seq<Submission>)
  {
    function Lock(p: Pair): Int64 { if p in locks then locks[p] else 0 }

    function WithSession(i: nat, s: Session): Seller
      requires i < |sessions|
    { this.(sessions := sessions[i := s]) }
  }

  /** The flow of session i returns; a deferred function releases what it locked. */
  function Leave(w: Seller, i: nat): Seller
    requires i < |w.sessions|
  {
    var s := w.sessions[i];
    if s.Holds() then
      w.WithSession(i, s.(ended := true, releases := s.releases + 1))
       .(locks := w.locks[s.pair := Wrap(w.Lock(s.pair) - s.price)])
    else w.WithSession(i, s.(ended := true))
  }

  function Proceed(w: Seller, i: nat, s: Session): Seller
    requires i < |w.sessions|
  {
    w.WithSession(i, s.(pc := s.pc + 1))
  }

  /** What session s locks when it comes to it. */
  function PriceOf(s: Session): Int64 {
    if s.mode.Vrf() then s.unitPrice else Wrap(s.count * s.unitPrice)
  }

  /** The price is fixed and, if calcuDeposit allows it, locked. */
  function TryLock(w: Seller, i: nat, inp: Input): (r: Seller)
    requires i < |w.sessions|
    ensures |r.sessions| == |w.sessions|
  {
    var s := w.sessions[i];
    var price := PriceOf(s);
    if inp.ok && Grants(price, w.Lock(s.pair), inp.funds, inp.now) then
      w.WithSession(i, s.(price := price, grants := s.grants + 1, pc := s.pc + 1))
       .(locks := w.locks[s.pair := Wrap(w.Lock(s.pair) + price)])
    else Leave(w.WithSession(i, s.(price := price)), i)
  }

  /** Whether a step that neither locks nor submits lets the flow go on. */
  predicate Passes(s: Session, g: Stage, inp: Input) {
    match g
    case ComparePrice => s.receiptPrice == s.price
    case CheckExpiry => inp.now + SAFETY_MARGIN <= s.expireAt
    case _ => inp.ok    // for CheckDeposit: no error; a deposit that no longer covers the price does not stop it
  }

  /** What the transaction keeps of such a step. */
  function Noted(s: Session, g: Stage, inp: Input): Session {
    match g
    case CountRequest => s.(count := inp.count)
    case ReceiveReceipt => s.(receiptPrice := inp.receiptPrice, expireAt := inp.expireAt)
    case VerifyReceipt => s.(receiptVerified := true)
    case CheckExpiry => s.(checkedAt := inp.now)
    case CheckDeposit => s.(secondLook := StillCovers(s.price, inp.funds, inp.now))
    case _ => s
  }

  /** The next step of session i. */
  function Advance(w: Seller, i: nat, inp: Input): (r: Seller)
    requires i < |w.sessions|
    ensures |r.sessions| == |w.sessions|
  {
    var s := w.sessions[i];
    var flow := Flow(s.mode);
    if s.ended then w
    else if s.pc >= |flow| then Leave(w, i)
    else
      match flow[s.pc]
      case LockDeposit => TryLock(w, i, inp)
      case SubmitSecret =>
        if inp.ok && inp.signatureOk then
          var sub := Submission(i, s.price, Wrap(s.unitPrice * s.count), s.receiptPrice, s.expireAt,
                                s.Holds(), s.receiptVerified, s.checkedAt, s.secondLook);
          Proceed(w.(submissions := w.submissions + [sub]), i, s)
        else Leave(w, i)
      case g => if Passes(s, g, inp) then Proceed(w, i, Noted(s, g, inp)) else Leave(w, i)
  }

  /** A buyer connects: the count starts at 1. */
  function Open(w: Seller, m: Mode, p: Pair, unitPrice: Int64): Seller {
    w.(sessions := w.sessions + [Session(m, p, unitPrice, 1, 0, 0, 0, 0, false, 0, 0, false, 0, true)])
  }

  datatype Event = Opens(mode: Mode, pair: Pair, unitPrice: Int64) | Advances(i: nat, inp: Input)

  function Next(w: Seller, e: Event): Seller {
    match e
    case Opens(m, p, u) => Open(w, m, p, u)
    case Advances(i, inp) => if i < |w.sessions| then Advance(w, i, inp) else w
  }

  function Run(events: seq<Event>): Seller {
    if |events| == 0 then Seller([], map[], []) else Next(Run(events[..|events| - 1]), events[|events| - 1])
  }

  // ---------- Where the stages are ----------

  /** The position of the lock in the flow of m. */
  function LockAt(m: Mode): nat {
    if m.Vrf() then 0 else if m.Ot() then 8 else 2
  }

  lemma OpeningStages(m: Mode, k: nat)
    requires k < |Opening(m)|
    ensures Opening(m)[k] == LockDeposit <==> k == LockAt(m)
    ensures Opening(m)[k] == CountRequest <==> !m.Vrf() && k + 1 == LockAt(m)
    ensures LockAt(m) < |Opening(m)|
    ensures var g := Opening(m)[k];
            !g.ReceiveReceipt? && !g.ComparePrice? && !g.VerifyReceipt? && !g.CheckExpiry? && !g.SubmitSecret?
  {
  }

  lemma ClosingStages(m: Mode, k: nat)
    requires k < |Closing(m)|
    ensures var g := Closing(m)[k]; g.CheckDeposit? || g.SubmitSecret? || g.ReadSecret?
  {
  }

  /** Each stage of interest stands where it is said to, and nowhere else. */
  lemma Stages(m: Mode, k: nat)
    requires k < |Flow(m)|
    ensures LockAt(m) < |Opening(m)|
    ensures var v, g := |Opening(m)|, Flow(m)[k];
            && (g == LockDeposit <==> k == LockAt(m))
            && (g == CountRequest <==> !m.Vrf() && k + 1 == LockAt(m))
            && (g == ReceiveReceipt <==> k == v + 2) && (g == ComparePrice <==> k == v + 3)
            && (g == VerifyReceipt <==> k == v + 4) && (g == CheckExpiry <==> k == v + 5)
            && (g == SubmitSecret ==> k >= v + 6)
  {
    var v := |Opening(m)|;
    OpeningStages(m, 0);
    if k < v {
      OpeningStages(m, k);
    } else if k >= v + 6 {
      ClosingStages(m, k - v - 6);
    }
    hide Opening, Closing;
  }

  // ---------- What every session keeps ----------

  /** What a session that has come to step pc has established. */
  ghost predicate Established(s: Session) {
    var v := |Opening(s.mode)|;
    && (s.mode.Vrf() ==> s.count == 1)
    && (s.pc > LockAt(s.mode) ==> s.price == Wrap(s.unitPrice * s.count))
    && (s.pc > v + 3 ==> s.receiptPrice == s.price)
    && (s.pc > v + 4 ==> s.receiptVerified)
    && (s.pc > v + 5 ==> s.checkedAt + SAFETY_MARGIN <= s.expireAt)
  }

  /** At most one grant; released when the flow has returned, and not before. */
  ghost predicate GoodSession(s: Session) {
    if s.ended then s.releases == s.grants <= 1
    else
      && Established(s) && s.pc <= |Flow(s.mode)|
      && s.releases == 0 && s.grants == if s.pc > LockAt(s.mode) then 1 else 0
  }

  /** What a submitted secret may rely on. */
  ghost predicate GoodSubmission(u: Submission) {
    && u.locked && u.receiptVerified
    && u.price == u.signedPrice == u.receiptPrice
    && u.checkedAt + SAFETY_MARGIN <= u.expireAt
  }

  /** What session s contributes to the lock of pair p. */
  function Share(s: Session, p: Pair): int { if s.Holds() && s.pair == p then s.price else 0 }

  function HeldSum(ss: seq<Session>, p: Pair): int {
    if |ss| == 0 then 0 else HeldSum(ss[..|ss| - 1], p) + Share(ss[|ss| - 1], p)
  }

  lemma {:induction false} HeldSumUpdate(ss: seq<Session>, i: nat, s: Session, p: Pair)
    requires i < |ss|
    ensures HeldSum(ss[i := s], p) == HeldSum(ss, p) - Share(ss[i], p) + Share(s, p)
  {
    if i == |ss| - 1 {
      assert ss[i := s][..i] == ss[..i];
    } else {
      assert ss[i := s][..|ss| - 1] == ss[..|ss| - 1][i := s];
      HeldSumUpdate(ss[..|ss| - 1], i, s, p);
    }
  }

  ghost predicate Inv(w: Seller) {
    && (forall i | 0 <= i < |w.sessions| :: GoodSession(w.sessions[i]))
    && (forall u | u in w.submissions :: GoodSubmission(u))
    && (forall p: Pair :: w.Lock(p) == Wrap(HeldSum(w.sessions, p)))
  }

  // ---------- Steps ----------

  /** Session i becomes s', and the locks change by what it holds more or less. */
  ghost predicate Moved(w: Seller, w': Seller, i: nat, s': Session) {
    && i < |w.sessions| && w'.sessions == w.sessions[i := s']
    && forall p: Pair :: w'.Lock(p) == Wrap(w.Lock(p) + Share(s', p) - Share(w.sessions[i], p))
  }

  ghost predicate Stepped(w: Seller, w': Seller, i: nat) {
    && i < |w.sessions| && |w'.sessions| == |w.sessions| && GoodSession(w'.sessions[i])
    && Moved(w, w', i, w'.sessions[i])
    && (w'.submissions == w.submissions
        || exists u :: w'.submissions == w.submissions + [u] && GoodSubmission(u))
  }

  lemma LeaveSteps(w: Seller, i: nat)
    requires i < |w.sessions| && GoodSession(w.sessions[i]) && !w.sessions[i].ended
    ensures Stepped(w, Leave(w, i), i)
  {
    hide Established, Flow, LockAt;
  }

  /** Leaving without the lock, the price already entered. */
  lemma RefusedSteps(w: Seller, i: nat, price: Int64)
    requires i < |w.sessions| && GoodSession(w.sessions[i]) && !w.sessions[i].ended && !w.sessions[i].Holds()
    ensures Stepped(w, Leave(w.WithSession(i, w.sessions[i].(price := price)), i), i)
  {
    hide Established, Flow, LockAt;
    var s := w.sessions[i];
    var w' := Leave(w.WithSession(i, s.(price := price)), i);
    assert w'.sessions == w.sessions[i := s.(price := price, ended := true)];
  }

  /** A step that neither locks nor submits. */
  lemma ProceedSteps(w: Seller, i: nat, s': Session)
    requires i < |w.sessions| && GoodSession(w.sessions[i]) && !w.sessions[i].ended
    requires var s := w.sessions[i]; s' == s.(count := s'.count, receiptPrice := s'.receiptPrice, expireAt := s'.expireAt,
                                             receiptVerified := s'.receiptVerified, checkedAt := s'.checkedAt,
                                             secondLook := s'.secondLook)
    requires GoodSession(s'.(pc := s'.pc + 1))
    ensures Stepped(w, Proceed(w, i, s'), i)
  {
    hide GoodSession;
  }

  /** A session that runs and stands at step pc of its flow. */
  ghost predicate At(s: Session, g: Stage) {
    GoodSession(s) && !s.ended && s.pc < |Flow(s.mode)| && Flow(s.mode)[s.pc] == g
  }

  lemma LockSteps(w: Seller, i: nat, inp: Input)
    requires i < |w.sessions| && At(w.sessions[i], LockDeposit)
    ensures Stepped(w, TryLock(w, i, inp), i)
  {
    var s, price := w.sessions[i], PriceOf(w.sessions[i]);
    GrantedSession(s, price);
    hide Flow, Grants, Wrap, Stepped, Leave, PriceOf, GoodSession;
    if inp.ok && Grants(price, w.Lock(s.pair), inp.funds, inp.now) {
      GrantedSteps(w, i, price);
    } else {
      RefusedSteps(w, i, price);
    }
  }

  /** The session once it holds the lock. */
  lemma GrantedSession(s: Session, price: Int64)
    requires At(s, LockDeposit) && price == PriceOf(s)
    ensures GoodSession(s.(price := price, grants := s.grants + 1, pc := s.pc + 1)) && s.grants == 0 == s.releases
  {
    Stages(s.mode, s.pc);
    hide Flow, Opening, LockAt, Wrap;
    LockPrice(s);
  }

  lemma GrantedSteps(w: Seller, i: nat, price: Int64)
    requires i < |w.sessions| && w.sessions[i].grants == 0 == w.sessions[i].releases
    requires GoodSession(w.sessions[i].(price := price, grants := 1, pc := w.sessions[i].pc + 1))
    ensures var s := w.sessions[i];
            Stepped(w, w.WithSession(i, s.(price := price, grants := 1, pc := s.pc + 1))
                        .(locks := w.locks[s.pair := Wrap(w.Lock(s.pair) + price)]), i)
  {
    hide GoodSession;
    forall p: Pair ensures w.Lock(p) == Wrap(w.Lock(p)) {
      WrapExact(w.Lock(p));
    }
    hide Wrap;
  }

  lemma LockPrice(s: Session)
    requires s.mode.Vrf() ==> s.count == 1
    ensures PriceOf(s) == Wrap(s.unitPrice * s.count)
  {
    if s.mode.Vrf() {
      assert s.unitPrice * s.count == s.unitPrice;
    }
  }

  lemma SubmitSteps(w: Seller, i: nat, inp: Input)
    requires i < |w.sessions| && At(w.sessions[i], SubmitSecret)
    ensures Stepped(w, Advance(w, i, inp), i)
  {
    var s := w.sessions[i];
    Stages(s.mode, s.pc);
    hide Flow, Opening, LockAt;
    if inp.ok && inp.signatureOk {
      var u := Submission(i, s.price, Wrap(s.unitPrice * s.count), s.receiptPrice, s.expireAt,
                          s.Holds(), s.receiptVerified, s.checkedAt, s.secondLook);
      assert GoodSubmission(u);
      ProceedSteps(w, i, s);
      assert Advance(w, i, inp) == Proceed(w, i, s).(submissions := w.submissions + [u]);
      hide GoodSession, GoodSubmission, Wrap;
    } else {
      LeaveSteps(w, i);
    }
  }

  lemma OtherSteps(w: Seller, i: nat, inp: Input)
    requires i < |w.sessions| && GoodSession(w.sessions[i]) && !w.sessions[i].ended && w.sessions[i].pc < |Flow(w.sessions[i].mode)|
    requires var g := Flow(w.sessions[i].mode)[w.sessions[i].pc]; !g.LockDeposit? && !g.SubmitSecret?
    ensures Stepped(w, Advance(w, i, inp), i)
  {
    var s := w.sessions[i];
    var g := Flow(s.mode)[s.pc];
    hide Flow, GoodSession, Stepped, Leave, Proceed, Passes, Noted, Wrap;
    if Passes(s, g, inp) {
      NotedGood(s, g, inp);
      ProceedSteps(w, i, Noted(s, g, inp));
    } else {
      LeaveSteps(w, i);
    }
  }

  /** A step that passes leaves a good session, its holdings as they were. */
  lemma NotedGood(s: Session, g: Stage, inp: Input)
    requires At(s, g) && !g.LockDeposit? && !g.SubmitSecret? && Passes(s, g, inp)
    ensures var s' := Noted(s, g, inp);
            && s' == s.(count := s'.count, receiptPrice := s'.receiptPrice, expireAt := s'.expireAt,
                        receiptVerified := s'.receiptVerified, checkedAt := s'.checkedAt, secondLook := s'.secondLook)
            && GoodSession(s'.(pc := s'.pc + 1))
  {
    Stages(s.mode, s.pc);
    hide Flow, Opening, LockAt, Wrap;
  }

  lemma SessionStep(w: Seller, i: nat, inp: Input)
    requires i < |w.sessions| && GoodSession(w.sessions[i])
    ensures Stepped(w, Advance(w, i, inp), i)
  {
    var s := w.sessions[i];
    if s.ended {
      assert w.sessions[i := s] == w.sessions;
    } else if s.pc >= |Flow(s.mode)| {
      LeaveSteps(w, i);
    } else if Flow(s.mode)[s.pc].LockDeposit? {
      LockSteps(w, i, inp);
    } else if Flow(s.mode)[s.pc].SubmitSecret? {
      SubmitSteps(w, i, inp);
    } else {
      OtherSteps(w, i, inp);
    }
  }

  lemma LocksFollow(w: Seller, w': Seller, i: nat)
    requires Stepped(w, w', i) && forall p: Pair :: w.Lock(p) == Wrap(HeldSum(w.sessions, p))
    ensures forall p: Pair :: w'.Lock(p) == Wrap(HeldSum(w'.sessions, p))
  {
    hide GoodSession, HeldSum, Share, Wrap;
    forall p: Pair ensures w'.Lock(p) == Wrap(HeldSum(w'.sessions, p)) {
      var s := w'.sessions[i];
      HeldSumUpdate(w.sessions, i, s, p);
      WrapAdd(HeldSum(w.sessions, p), Share(s, p) - Share(w.sessions[i], p));
    }
  }

  lemma AdvanceKeeps(w: Seller, i: nat, inp: Input)
    requires Inv(w) && i < |w.sessions|
    ensures Inv(Advance(w, i, inp))
  {
    hide GoodSession, GoodSubmission, HeldSum, Wrap, Advance, Moved;
    var w' := Advance(w, i, inp);
    SessionStep(w, i, inp);
    LocksFollow(w, w', i);
    forall j | 0 <= j < |w'.sessions| ensures GoodSession(w'.sessions[j]) {
      OthersUntouched(w, w', i, j);
    }
  }

  lemma OthersUntouched(w: Seller, w': Seller, i: nat, j: nat)
    requires Stepped(w, w', i) && j < |w.sessions|
    ensures j != i ==> w'.sessions[j] == w.sessions[j]
  {
    hide GoodSession, GoodSubmission, Wrap, Share;
  }

  lemma OpenKeeps(w: Seller, m: Mode, p: Pair, unitPrice: Int64)
    requires Inv(w)
    ensures Inv(Open(w, m, p, unitPrice))
  {
    hide Flow, Wrap, GoodSubmission;
    var w' := Open(w, m, p, unitPrice);
    assert w'.sessions[..|w'.sessions| - 1] == w.sessions;
    forall q: Pair ensures HeldSum(w'.sessions, q) == HeldSum(w.sessions, q) {
    }
  }

  lemma {:induction false} RunInv(events: seq<Event>)
    ensures Inv(Run(events))
  {
    if |events| > 0 {
      var before, e := Run(events[..|events| - 1]), events[|events| - 1];
      RunInv(events[..|events| - 1]);
      hide Inv, Run, Advance, Open;
      match e
      case Opens(m, p, u) => OpenKeeps(before, m, p, u);
      case Advances(i, inp) =>
        if i < |before.sessions| {
          AdvanceKeeps(before, i, inp);
        }
    }
  }

  // ---------- Main results ----------

  /** Over any interleaving of sessions in all modes: the lock of a pair is the sum of the prices of the
      sessions that hold it, as int64, and so the sum itself exactly when that fits. */
  lemma LockIsHeldSum(events: seq<Event>, p: Pair)
    ensures var w := Run(events);
            && w.Lock(p) == Wrap(HeldSum(w.sessions, p))
            && (w.Lock(p) == HeldSum(w.sessions, p) <==> -TWO_TO_63 <= HeldSum(w.sessions, p) < TWO_TO_63)
  {
    RunInv(events);
    WrapExact(HeldSum(Run(events).sessions, p));
  }

  /** A session is granted the lock at most once; it is released exactly once if it was granted, by the
      time the flow has returned, whichever way it returns, and never before. */
  lemma ReleasedOnce(events: seq<Event>, i: nat)
    requires i < |Run(events).sessions|
    ensures var s := Run(events).sessions[i];
            && s.grants <= 1 && (if s.ended then s.releases == s.grants else s.releases == 0)
  {
    RunInv(events);
    assert GoodSession(Run(events).sessions[i]);
  }

  /** A secret goes to the contract only while its session holds the lock, after the receipt was verified,
      with the price that was locked, which is the receipt's price and the signed one (count times unit
      price in int64), and with at least 600 seconds left when the clock was looked at. */
  lemma SecretGating(events: seq<Event>, u: Submission)
    requires u in Run(events).submissions
    ensures u.locked && u.receiptVerified && u.price == u.receiptPrice == u.signedPrice
    ensures u.checkedAt + SAFETY_MARGIN <= u.expireAt
  {
    RunInv(events);
  }

  /** Whether the next step of session i is granted the lock. */
  ghost predicate Granted(w: Seller, i: nat, inp: Input)
    requires i < |w.sessions|
  {
    Advance(w, i, inp).sessions[i].grants > w.sessions[i].grants
  }

  /** Only the lock step grants, and only what calcuDeposit allows. */
  lemma GrantsHere(w: Seller, i: nat, inp: Input)
    requires i < |w.sessions| && Granted(w, i, inp)
    ensures var s := w.sessions[i];
            && (GoodSession(s) ==> At(s, LockDeposit))
            && Advance(w, i, inp).sessions == w.sessions[i := s.(price := PriceOf(s), grants := s.grants + 1, pc := s.pc + 1)]
            && Grants(PriceOf(s), w.Lock(s.pair), inp.funds, inp.now)
  {
    hide Wrap, Grants, Flow, PriceOf, GoodSession;
    var s := w.sessions[i];
    assert !s.ended && s.pc < |Flow(s.mode)| && Flow(s.mode)[s.pc].LockDeposit?;
    assert Advance(w, i, inp) == TryLock(w, i, inp);
    hide Advance;
  }

  /** The sum held after a grant is the sum before and the price. */
  lemma GrantAdds(w: Seller, i: nat, inp: Input)
    requires i < |w.sessions| && GoodSession(w.sessions[i]) && Granted(w, i, inp)
    ensures var s := w.sessions[i];
            HeldSum(Advance(w, i, inp).sessions, s.pair) == HeldSum(w.sessions, s.pair) + PriceOf(s)
  {
    var s := w.sessions[i];
    GrantsHere(w, i, inp);
    GrantedSession(s, PriceOf(s));
    hide Advance, Granted, GoodSession, PriceOf, HeldSum;
    HeldSumUpdate(w.sessions, i, s.(price := PriceOf(s), grants := s.grants + 1, pc := s.pc + 1), s.pair);
  }

  /** A grant, in any run: the deposit was neither withdrawn nor about to be; the lock left behind is at most
      the deposit just read; and the prices really held are at most that deposit if and only if, with the
      price to come, they stay below 2^63. */
  lemma GrantWithinDeposit(events: seq<Event>, i: nat, inp: Input)
    requires i < |Run(events).sessions| && Granted(Run(events), i, inp)
    ensures var w := Run(events); var w' := Advance(w, i, inp); var s := w.sessions[i];
            && w'.Lock(s.pair) <= inp.funds.value && w'.Lock(s.pair) == Wrap(HeldSum(w'.sessions, s.pair))
            && HeldSum(w'.sessions, s.pair) == HeldSum(w.sessions, s.pair) + PriceOf(s)
            && (HeldSum(w'.sessions, s.pair) <= inp.funds.value <==> HeldSum(w.sessions, s.pair) + PriceOf(s) < TWO_TO_63)
    ensures inp.funds.stat != 1
    ensures inp.funds.stat == 2 ==> inp.now + SAFETY_MARGIN <= inp.funds.unDepositAt + UNDEPOSIT_PERIOD
  {
    var w := Run(events);
    RunInv(events);
    assert GoodSession(w.sessions[i]);
    hide Run, Advance, Granted, HeldSum, PriceOf, GoodSession, GoodSubmission;
    GrantedWithin(w, i, inp);
  }

  lemma GrantedWithin(w: Seller, i: nat, inp: Input)
    requires Inv(w) && i < |w.sessions| && GoodSession(w.sessions[i]) && Granted(w, i, inp)
    ensures var w' := Advance(w, i, inp); var s := w.sessions[i];
            && w'.Lock(s.pair) <= inp.funds.value && w'.Lock(s.pair) == Wrap(HeldSum(w'.sessions, s.pair))
            && HeldSum(w'.sessions, s.pair) == HeldSum(w.sessions, s.pair) + PriceOf(s)
            && (HeldSum(w'.sessions, s.pair) <= inp.funds.value <==> HeldSum(w.sessions, s.pair) + PriceOf(s) < TWO_TO_63)
    ensures inp.funds.stat != 1
    ensures inp.funds.stat == 2 ==> inp.now + SAFETY_MARGIN <= inp.funds.unDepositAt + UNDEPOSIT_PERIOD
  {
    var s := w.sessions[i];
    GrantsHere(w, i, inp);
    GrantAdds(w, i, inp);
    AdvanceKeeps(w, i, inp);
    var sum := HeldSum(w.sessions, s.pair) + PriceOf(s);
    assert w.Lock(s.pair) == Wrap(HeldSum(w.sessions, s.pair));
    hide Advance, Granted, HeldSum, PriceOf, GoodSession, GoodSubmission;
    WrapAdd(HeldSum(w.sessions, s.pair), PriceOf(s));
    WrapExact(sum);
  }

  /** The price of a secret is count times unit price exactly when the product fits; in the query modes
      it is the unit price. */
  lemma PriceIsProduct(events: seq<Event>, i: nat)
    requires var w := Run(events); i < |w.sessions| && w.sessions[i].Holds()
    ensures var s := Run(events).sessions[i];
            && s.price == Wrap(s.unitPrice * s.count)
            && (s.mode.Vrf() ==> s.price == s.unitPrice)
            && (s.price == s.unitPrice * s.count <==> -TWO_TO_63 <= s.unitPrice * s.count < TWO_TO_63)
  {
    RunInv(events);
    assert GoodSession(Run(events).sessions[i]);
    HoldingPrice(Run(events).sessions[i]);
  }

  lemma HoldingPrice(s: Session)
    requires GoodSession(s) && s.Holds()
    ensures s.price == Wrap(s.unitPrice * s.count)
    ensures s.mode.Vrf() ==> s.price == s.unitPrice
    ensures s.price == s.unitPrice * s.count <==> -TWO_TO_63 <= s.unitPrice * s.count < TWO_TO_63
  {
    hide Flow, Opening, LockAt;
    var product := s.unitPrice * s.count;
    WrapExact(product);
    if s.mode.Vrf() {
      assert product == s.unitPrice;
    }
    hide Wrap;
  }

  // ---------- Where int64 gives out ----------

  lemma RunSnoc(events: seq<Event>, e: Event)
    ensures Run(events + [e]) == Next(Run(events), e)
  {
    assert (events + [e])[..|events|] == events;
  }

  /** Every answer favourable: four items asked for, and this deposit. */
  function Favourable(deposit: Int64): Input { Input(true, 4, Funds(deposit, 0, 0), 0, 0, 0, true) }

  const TWO_TO_62 := 0x4000_0000_0000_0000

  /** What the two first steps of a plain complaint and the lock step do, when all goes well. */
  lemma FirstSteps(w: Seller, i: nat, inp: Input)
    requires i < |w.sessions| && !w.sessions[i].ended && inp.ok
    ensures w.sessions[i].mode.PlainComplaint? && w.sessions[i].pc == 0 ==> Advance(w, i, inp) == Proceed(w, i, w.sessions[i])
    ensures w.sessions[i].mode.PlainComplaint? && w.sessions[i].pc == 1 ==>
              Advance(w, i, inp) == Proceed(w, i, w.sessions[i].(count := inp.count))
    ensures w.sessions[i].pc == LockAt(w.sessions[i].mode) && !w.sessions[i].mode.Ot() ==> Advance(w, i, inp) == TryLock(w, i, inp)
  {
    hide TryLock, Leave, Proceed;
  }

  /** A session of its own that holds the lock at some price. */
  function Holder(m: Mode, count: Int64, price: Int64): Session {
    Session(m, 0, TWO_TO_62, count, price, 0, 0, LockAt(m) + 1, false, 1, 0, false, 0, true)
  }

  const CHEAP: seq<Event> :=
    [Opens(PlainComplaint, 0, TWO_TO_62)] + [Advances(0, Favourable(0))] + [Advances(0, Favourable(0))] + [Advances(0, Favourable(0))]

  /** A price that does not fit: four items at 2^62 each are granted at price 0, against no deposit at all. */
  lemma FourForNothing()
    ensures Run(CHEAP).sessions == [Holder(PlainComplaint, 4, 0)] && Run(CHEAP).sessions[0].Holds()
  {
    var e0, e := Opens(PlainComplaint, 0, TWO_TO_62), Advances(0, Favourable(0));
    RunSnoc([], e0);
    assert [] + [e0] == [e0];
    RunSnoc([e0], e);
    RunSnoc([e0] + [e], e);
    RunSnoc([e0] + [e] + [e], e);
    assert Run([]) == Seller([], map[], []);
    hide Run, Flow, Advance;
    var s := Session(PlainComplaint, 0, TWO_TO_62, 1, 0, 0, 0, 0, false, 0, 0, false, 0, true);
    var w1, w2, w3 := Run([e0]), Run([e0] + [e]), Run([e0] + [e] + [e]);
    assert w1 == Seller([s], map[], []);
    FirstSteps(w1, 0, e.inp);
    assert w2 == Seller([s.(pc := 1)], map[], []);
    FirstSteps(w2, 0, e.inp);
    assert w3 == Seller([s.(pc := 2, count := 4)], map[], []);
    FirstSteps(w3, 0, e.inp);
  }

  const BEYOND: seq<Event> :=
    [Opens(TableVrf, 0, TWO_TO_62)] + [Advances(0, Favourable(TWO_TO_63 - 1))]
    + [Opens(TableVrf, 0, TWO_TO_62)] + [Advances(1, Favourable(TWO_TO_63 - 1))]

  /** A sum that does not fit: two queries at 2^62 are both granted against a deposit of 2^63 - 1; the prices
      held are more than the deposit, and the lock is negative. */
  lemma TwoBeyondTheDeposit()
    ensures HeldSum(Run(BEYOND).sessions, 0) == TWO_TO_63 && Run(BEYOND).Lock(0) == -TWO_TO_63
  {
    var o, f := Opens(TableVrf, 0, TWO_TO_62), Favourable(TWO_TO_63 - 1);
    RunSnoc([], o);
    assert [] + [o] == [o];
    RunSnoc([o], Advances(0, f));
    RunSnoc([o] + [Advances(0, f)], o);
    RunSnoc([o] + [Advances(0, f)] + [o], Advances(1, f));
    assert Run([]) == Seller([], map[], []);
    hide Run, Flow, Advance, HeldSum;
    var s, h := Session(TableVrf, 0, TWO_TO_62, 1, 0, 0, 0, 0, false, 0, 0, false, 0, true), Holder(TableVrf, 1, TWO_TO_62);
    var w1, w2, w3 := Run([o]), Run([o] + [Advances(0, f)]), Run([o] + [Advances(0, f)] + [o]);
    assert w1 == Seller([s], map[], []);
    FirstSteps(w1, 0, f);
    assert w2 == Seller([h], map[0 := TWO_TO_62], []);
    assert w3 == Seller([h, s], map[0 := TWO_TO_62], []);
    FirstSteps(w3, 1, f);
    assert Run(BEYOND) == Seller([h, h], map[0 := -TWO_TO_63], []);
    HeldByTwo(h);
  }

  lemma HeldByTwo(h: Session)
    requires h.Holds() && h.pair == 0
    ensures HeldSum([h, h], 0) == h.price + h.price
  {
    assert [h, h][..1] == [h] && [h][..0] == [];
    assert HeldSum([h], 0) == HeldSum([], 0) + Share(h, 0);
    assert HeldSum([h, h], 0) == HeldSum([h], 0) + Share(h, 0);
  }

  /** A query at price 5, from the buyer's connection to the submission: the deposit is 5 when it is locked,
      and gone at the second look. */
  function AnswerTo(pc: nat): Input {
    Input(true, 0, Funds(if pc == 8 then 0 else 5, 0, 0), 0, 5, SAFETY_MARGIN, true)
  }

  function Sale(steps: nat): seq<Event> {
    if steps == 0 then [Opens(TableVrf, 0, 5)] else Sale(steps - 1) + [Advances(0, AnswerTo(steps - 1))]
  }

  function SoldTo(pc: nat): Session {
    Session(TableVrf, 0, 5, 1, if pc > 0 then 5 else 0, if pc > 4 then 5 else 0, if pc > 4 then SAFETY_MARGIN else 0,
            pc, false, if pc > 0 then 1 else 0, 0, pc > 6, 0, pc <= 8)
  }

  const UNCOVERED := Submission(0, 5, 5, 5, SAFETY_MARGIN, true, true, 0, false)

  lemma SaleStep(w: Seller, pc: nat)
    requires pc < 10 && w.sessions == [SoldTo(pc)] && w.Lock(0) == if pc > 0 then 5 else 0
    ensures var w' := Advance(w, 0, AnswerTo(pc));
            && w'.sessions == [SoldTo(pc + 1)] && w'.Lock(0) == 5
            && w'.submissions == w.submissions + if pc == 9 then [UNCOVERED] else []
  {
    var flow := [LockDeposit, ReceiveRequest, VerifyRequest, SendResponse, ReceiveReceipt, ComparePrice, VerifyReceipt,
                 CheckExpiry, CheckDeposit, SubmitSecret, ReadSecret];
    assert Flow(TableVrf) == flow;
    assert Flow(TableVrf)[pc] == flow[pc];
    assert w.sessions[0 := SoldTo(pc + 1)] == [SoldTo(pc + 1)];
    hide Flow;
  }

  lemma {:induction false} SaleRuns(steps: nat)
    requires steps <= 10
    ensures var w := Run(Sale(steps));
            && w.sessions == [SoldTo(steps)] && w.Lock(0) == (if steps > 0 then 5 else 0)
            && w.submissions == if steps == 10 then [UNCOVERED] else []
  {
    if steps == 0 {
      assert [] + [Opens(TableVrf, 0, 5)] == Sale(0);
      RunSnoc([], Opens(TableVrf, 0, 5));
    } else {
      SaleRuns(steps - 1);
      RunSnoc(Sale(steps - 1), Advances(0, AnswerTo(steps - 1)));
      SaleStep(Run(Sale(steps - 1)), steps - 1);
      hide Run, Advance;
    }
  }

  /** The second look says that the deposit is gone, and the secret is submitted all the same. */
  lemma SubmittedUncovered()
    ensures Run(Sale(10)).submissions == [UNCOVERED] && !UNCOVERED.secondLook
    ensures !StillCovers(UNCOVERED.price, AnswerTo(8).funds, AnswerTo(8).now)
  {
    SaleRuns(10);
  }

  function AdvanceAll(w: Seller, i: nat, inps: seq<Input>): Seller
    requires i < |w.sessions|
    decreases |inps|
  {
    if |inps| == 0 then w
    else
      AdvanceAll(Advance(w, i, inps[0]), i, inps[1..])
  }

  /** A session's steps are bounded: whatever the answers, it has returned, and released its lock, after
      one step more than its flow is long. */
  lemma {:induction false} SessionEnds(w: Seller, i: nat, inps: seq<Input>)
    requires Inv(w) && i < |w.sessions|
    requires !w.sessions[i].ended ==> |inps| + w.sessions[i].pc > |Flow(w.sessions[i].mode)|
    ensures i < |AdvanceAll(w, i, inps).sessions|
    ensures var s := AdvanceAll(w, i, inps).sessions[i]; s.ended && !s.Holds()
    decreases |inps|
  {
    assert GoodSession(w.sessions[i]);
    if |inps| > 0 {
      AdvanceKeeps(w, i, inps[0]);
      AdvanceMoves(w, i, inps[0]);
      hide Inv, Advance, Flow, GoodSession;
      SessionEnds(Advance(w, i, inps[0]), i, inps[1..]);
    }
  }

  lemma AdvanceMoves(w: Seller, i: nat, inp: Input)
    requires i < |w.sessions|
    ensures |Advance(w, i, inp).sessions| == |w.sessions|
    ensures var s, s' := w.sessions[i], Advance(w, i, inp).sessions[i];
            s'.mode == s.mode && (s'.ended || (!s.ended && s'.pc == s.pc + 1))
  {
    hide Wrap, Flow, TryLock;
    LockMoves(w, i, inp);
  }

  lemma LockMoves(w: Seller, i: nat, inp: Input)
    requires i < |w.sessions|
    ensures var s, s' := w.sessions[i], TryLock(w, i, inp).sessions[i];
            s'.mode == s.mode && (s'.ended || (s'.ended == s.ended && s'.pc == s.pc + 1))
  {
    hide Wrap, Grants;
  }

  // ---------- The node in place ----------

  class AliceNode {
    var sessions: seq<Session>
    var depositLockMap: map<Pair, Int64>
    ghost var submissions: seq<Submission>

    ghost function View(): Seller
      reads this
    {
      Seller(sessions, depositLockMap, submissions)
    }

    constructor ()
      ensures View() == Run([])
    {
      sessions, depositLockMap, submissions := [], map[], [];
    }

    /** calcuDeposit: the check and, when it passes, the lock. */
    method CalcuDeposit(p: Pair, value: Int64, funds: Funds, now: int) returns (ok: bool)
      modifies this`depositLockMap
      ensures ok <==> Grants(value, old(View()).Lock(p), funds, now)
      ensures depositLockMap ==
              if ok then old(depositLockMap)[p := Wrap(old(View()).Lock(p) + value)] else old(depositLockMap)
    {
      var lock := if p in depositLockMap then depositLockMap[p] else 0;
      if Wrap(value + lock) > funds.value {
        return false;
      }
      if funds.stat == 1 {
        return false;
      }
      if funds.stat == 2 && now + SAFETY_MARGIN > funds.unDepositAt + UNDEPOSIT_PERIOD {
        return false;
      }
      depositLockMap := depositLockMap[p := Wrap(lock + value)];
      return true;
    }

    method Accept(m: Mode, p: Pair, unitPrice: Int64)
      modifies this`sessions
      ensures View() == Open(old(View()), m, p, unitPrice)
    {
      sessions := sessions + [Session(m, p, unitPrice, 1, 0, 0, 0, 0, false, 0, 0, false, 0, true)];
    }

    /** The flow of session i returns, running its deferred functions. */
    method Return(i: nat)
      requires i < |sessions|
      modifies this`sessions, this`depositLockMap
      ensures View() == Leave(old(View()), i)
    {
      var s := sessions[i];
      sessions := sessions[i := s.(ended := true)];
      if s.Holds() {
        var lock := if s.pair in depositLockMap then depositLockMap[s.pair] else 0;
        depositLockMap := depositLockMap[s.pair := Wrap(lock - s.price)];
        sessions := sessions[i := s.(ended := true, releases := s.releases + 1)];
      }
    }

    /** The price is fixed, then calcuDeposit decides. */
    method LockOrLeave(i: nat, inp: Input)
      requires i < |sessions|
      modifies this`sessions, this`depositLockMap
      ensures View() == TryLock(old(View()), i, inp)
    {
      hide Wrap, Grants;
      var s := sessions[i];
      s := s.(price := PriceOf(s));
      sessions := sessions[i := s];
      var ok := inp.ok;
      if ok {
        ok := CalcuDeposit(s.pair, s.price, inp.funds, inp.now);
      }
      if ok {
        sessions := sessions[i := s.(grants := s.grants + 1, pc := s.pc + 1)];
      } else {
        Return(i);
      }
    }

    method Step(i: nat, inp: Input)
      requires i < |sessions|
      modifies this
      ensures View() == Advance(old(View()), i, inp)
    {
      hide Wrap, TryLock, Flow, Leave, Passes, Noted;
      var s := sessions[i];
      if s.ended {
        return;
      }
      var flow := Flow(s.mode);
      if s.pc >= |flow| {
        Return(i);
        return;
      }
      var g := flow[s.pc];
      if g == LockDeposit {
        LockOrLeave(i, inp);
        return;
      }
      var pass := inp.ok && inp.signatureOk;
      if g == SubmitSecret {
        if pass {
          submissions := submissions + [Submission(i, s.price, Wrap(s.unitPrice * s.count), s.receiptPrice, s.expireAt,
                                                   s.Holds(), s.receiptVerified, s.checkedAt, s.secondLook)];
        }
      } else {
        pass := Passes(s, g, inp);
        s := Noted(s, g, inp);
      }
      if pass {
        sessions := sessions[i := s.(pc := s.pc + 1)];
      } else {
        Return(i);
      }
    }
  }
}
