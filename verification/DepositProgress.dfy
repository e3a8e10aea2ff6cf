/** When a sale must be granted the lock, and when it must reach the contract (seller_tx.go and contract.go). */
module DepositProgress {
  import opened Words
  import opened Deposit

  /** A price as it is asked for: in the query modes the unit price, otherwise that for each item. */
  function Asked(s: Session): int {
    if s.mode.Vrf() then s.unitPrice else s.count * s.unitPrice
  }

  /** The deposit as read covers what the sessions of the pair hold and the price asked, as int64, and it is neither withdrawn
      nor due to be withdrawn within 600 seconds. */
  ghost predicate Covered(w: Seller, s: Session, inp: Input) {
    && Wrap(HeldSum(w.sessions, s.pair) + Asked(s)) <= inp.funds.value
    && inp.funds.stat != 1
    && (inp.funds.stat == 2 ==> inp.now + 600 <= inp.funds.unDepositAt + 28800)
  }

  lemma WrapTwice(a: int, b: int)
    ensures Wrap(Wrap(a) + Wrap(b)) == Wrap(a + b)
  {
    WrapAdd(a, Wrap(b));
    WrapAdd(b, a);
  }

  lemma AskedWraps(s: Session)
    ensures PriceOf(s) == Wrap(Asked(s))
  {
    WrapExact(s.unitPrice);
  }

  lemma GrantsIff(w: Seller, s: Session, inp: Input)
    requires w.Lock(s.pair) == Wrap(HeldSum(w.sessions, s.pair))
    ensures Grants(PriceOf(s), w.Lock(s.pair), inp.funds, inp.now) <==> Covered(w, s, inp)
  {
    AskedWraps(s);
    WrapTwice(HeldSum(w.sessions, s.pair), Asked(s));
    hide Wrap, PriceOf, Asked, HeldSum;
  }

  /** In any run, a step is granted the lock exactly when its session has come to the lock, the deposit could be read and
      it covers the price. In particular one that is to be withdrawn later than in 600 seconds still does. */
  lemma GrantedIff(events: seq<Event>, i: nat, inp: Input)
    requires i < |Run(events).sessions|
    ensures var w := Run(events); var s := w.sessions[i];
            Granted(w, i, inp) <==> At(s, LockDeposit) && inp.ok && Covered(w, s, inp)
  {
    var w := Run(events);
    RunInv(events);
    assert GoodSession(w.sessions[i]) && w.Lock(w.sessions[i].pair) == Wrap(HeldSum(w.sessions, w.sessions[i].pair));
    hide Run, GoodSession, HeldSum;
    GrantsIff(w, w.sessions[i], inp);
    GrantedWhen(w, i, inp);
  }

  lemma GrantedWhen(w: Seller, i: nat, inp: Input)
    requires i < |w.sessions| && GoodSession(w.sessions[i])
    ensures var s := w.sessions[i];
            Granted(w, i, inp) <==> At(s, LockDeposit) && inp.ok && Grants(PriceOf(s), w.Lock(s.pair), inp.funds, inp.now)
  {
    hide Flow, Grants, PriceOf, GoodSession, Wrap;
  }

  // ---------- From the first step to the contract ----------

  /** What the next step of a session needs to go on. */
  ghost predicate Smooth(w: Seller, i: nat, inp: Input)
    requires i < |w.sessions| && w.sessions[i].pc < |Flow(w.sessions[i].mode)|
  {
    var s := w.sessions[i];
    match Flow(s.mode)[s.pc]
    case LockDeposit => inp.ok && Covered(w, s, inp)
    case ComparePrice => s.receiptPrice == s.price
    case CheckExpiry => inp.now + 600 <= s.expireAt
    case SubmitSecret => inp.ok && inp.signatureOk
    case _ => inp.ok
  }

  /** Session i goes on exactly when `smooth`, and otherwise has ended; a submission is made exactly when `submits`. */
  ghost predicate GoesOn(w: Seller, w': Seller, i: nat, smooth: bool, submits: bool) {
    && i < |w.sessions| == |w'.sessions|
    && var s, s' := w.sessions[i], w'.sessions[i];
       && s'.mode == s.mode && (smooth <==> !s'.ended) && (smooth ==> s'.pc == s.pc + 1)
       && (w'.submissions != w.submissions <==> submits)
  }

  lemma LockGoesOn(w: Seller, i: nat, inp: Input)
    requires i < |w.sessions| && !w.sessions[i].ended
    ensures var s := w.sessions[i];
            GoesOn(w, TryLock(w, i, inp), i, inp.ok && Grants(PriceOf(s), w.Lock(s.pair), inp.funds, inp.now), false)
  {
    hide Grants, PriceOf, Wrap;
  }

  lemma OtherGoesOn(w: Seller, i: nat, inp: Input)
    requires i < |w.sessions| && !w.sessions[i].ended && w.sessions[i].pc < |Flow(w.sessions[i].mode)|
    requires !Flow(w.sessions[i].mode)[w.sessions[i].pc].LockDeposit?
    ensures GoesOn(w, Advance(w, i, inp), i, Smooth(w, i, inp), Flow(w.sessions[i].mode)[w.sessions[i].pc].SubmitSecret? && Smooth(w, i, inp))
  {
    hide Flow, TryLock, Covered, StillCovers, Wrap;
  }

  /** A step goes on exactly when it is smooth. */
  lemma GoesOnIff(w: Seller, i: nat, inp: Input)
    requires Inv(w) && i < |w.sessions| && !w.sessions[i].ended && w.sessions[i].pc < |Flow(w.sessions[i].mode)|
    ensures GoesOn(w, Advance(w, i, inp), i, Smooth(w, i, inp), Flow(w.sessions[i].mode)[w.sessions[i].pc].SubmitSecret? && Smooth(w, i, inp))
  {
    var s := w.sessions[i];
    assert w.Lock(s.pair) == Wrap(HeldSum(w.sessions, s.pair));
    hide Inv, Flow, Grants, Covered, PriceOf, HeldSum, Wrap, TryLock, GoesOn;
    if Flow(s.mode)[s.pc].LockDeposit? {
      GrantsIff(w, s, inp);
      LockGoesOn(w, i, inp);
      assert Advance(w, i, inp) == TryLock(w, i, inp);
    } else {
      OtherGoesOn(w, i, inp);
    }
  }

  /** The secret is submitted in the last step but one, in every mode. */
  lemma SubmitsLastButOne(m: Mode, k: nat)
    requires k < |Flow(m)|
    ensures Flow(m)[k].SubmitSecret? <==> k + 2 == |Flow(m)|
  {
    var v := |Opening(m)|;
    assert |Flow(m)| == v + 6 + |Closing(m)|;
    if k < v {
      OpeningStages(m, k);
    } else if k < v + 6 {
      assert Flow(m)[k] == EXCHANGE[k - v];
    } else {
      assert Flow(m)[k] == Closing(m)[k - v - 6];
    }
  }

  ghost predicate AllSmooth(w: Seller, i: nat, inps: seq<Input>)
    requires i < |w.sessions|
    decreases |inps|
  {
    |inps| > 0 ==>
      && w.sessions[i].pc < |Flow(w.sessions[i].mode)| && Smooth(w, i, inps[0])
      && AllSmooth(Advance(w, i, inps[0]), i, inps[1..])
  }

  lemma {:induction false} EndedStays(w: Seller, i: nat, inps: seq<Input>)
    requires i < |w.sessions| && w.sessions[i].ended
    ensures AdvanceAll(w, i, inps) == w
    decreases |inps|
  {
    if |inps| > 0 {
      EndedStays(w, i, inps[1..]);
    }
  }

  /** A session in any mode, at any point before its submission, whatever else is going on: its secret reaches the contract
      exactly when the deposit covers the price when it is locked, the receipt has the price, 600 seconds are left and
      every other answer is favourable. */
  lemma {:induction false} SubmittedIff(w: Seller, i: nat, inps: seq<Input>)
    requires Inv(w) && i < |w.sessions| && !w.sessions[i].ended
    requires |inps| > 0 && w.sessions[i].pc + |inps| == |Flow(w.sessions[i].mode)| - 1
    ensures AdvanceAll(w, i, inps).submissions != w.submissions <==> AllSmooth(w, i, inps)
    decreases |inps|
  {
    var s := w.sessions[i];
    var w1 := Advance(w, i, inps[0]);
    assert AdvanceAll(w, i, inps) == AdvanceAll(w1, i, inps[1..]);
    GoesOnIff(w, i, inps[0]);
    SubmitsLastButOne(s.mode, s.pc);
    AdvanceKeeps(w, i, inps[0]);
    hide Inv, Flow, Advance, Smooth;
    if !Smooth(w, i, inps[0]) {
      EndedStays(w1, i, inps[1..]);
    } else if |inps| > 1 {
      SubmittedIff(w1, i, inps[1..]);
    }
  }
}
