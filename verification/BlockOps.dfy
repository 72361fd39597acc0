/** The translation of a block into the debit and credit operations of its accounts. */
module BlockOps {
  import opened Prelude
  import opened Wire

  /** Account addresses, as the bytes of their string. */
  type Account = Bytes

  /** The bytes of "*treasury". */
  const TREASURY: Account := [42, 116, 114, 101, 97, 115, 117, 114, 121]

  /** Conversion of a script to an account; None is an error, Some([]) means no account. */
  type AccountOf = (UInt16, Bytes) -> Option<Account>

  datatype OpStatus = Success | Reversed

  /** The attributes of the shared op that are filled in before a transaction is iterated. */
  datatype TxContext = TxContext(tree: Int8, status: OpStatus, tx: Tx, txIndex: int) {
    predicate IsVote() { tx.txType.Vote? }
    predicate IsCoinbase() { tree != TREE_STAKE && tx.txType.Regular? && txIndex == 0 }
    predicate IsTreasuryBase() { tree == TREE_STAKE && tx.txType.TreasuryBase? && txIndex == 0 }
    predicate IsTreasuryAdd() { tree == TREE_STAKE && tx.txType.TreasuryAdd? }
    predicate IsTreasurySpend() { tree == TREE_STAKE && tx.txType.TreasurySpend? }
    predicate SkipsFirstInput() { IsVote() || IsCoinbase() || IsTreasuryBase() }

    function Signed(x: int): int {
      if status.Reversed? then -x else x
    }

    /** The outpoints whose outputs must be fetched. */
    function Targets(): seq<OutPoint> {
      var ins := if (SkipsFirstInput() || IsTreasurySpend()) && tx.ins != [] then tx.ins[1..] else tx.ins;
      seq(|ins|, i requires 0 <= i < |ins| => ins[i].prevOut)
    }
  }

  /** The type of an op with the input it spends or the output it creates. */
  datatype Side = Debit(input: TxIn, prevOutput: Option<PrevOutput>) | Credit(output: TxOut)

  datatype Op = Op(ctx: TxContext, ioIndex: nat, account: Account, opIndex: nat, amount: int, side: Side) {
    predicate IsReversed() {
      ctx.status.Reversed?
    }
  }

  /** The outpoint an operation spends or creates. */
  function OutPointOf(op: Op): OutPoint {
    match op.side
    case Debit(input, _) => input.prevOut
    case Credit(_) => OutPoint(op.ctx.tx.hash, op.ioIndex % TWO_32, op.ctx.tree)
  }

  datatype OpError = NeedsPreviousBlock | MissingPrevOut | BadScript | PrevOutNotFound | RpcFailure

  /** The operations handed to the callback so far, and the error that stopped the iteration, if any. */
  datatype Emission = Emission(ops: seq<Op>, err: Option<OpError>)

  const NOTHING := Emission([], None)

  predicate ApprovesParent(voteBits: UInt16) {
    voteBits % 2 == 1
  }

  /* ----- One transaction ----- */

  datatype Step = Skip | Fail(err: OpError) | Emit(op: Op)

  /** What the iteration does with input i. */
  function InStep(accountOf: AccountOf, c: TxContext, prevOuts: map<OutPoint, PrevOutput>, i: nat): Step
    requires i < |c.tx.ins|
  {
    var input := c.tx.ins[i];
    if i == 0 && c.SkipsFirstInput() then Skip
    else if c.IsTreasurySpend() then
      Emit(Op(c, i, TREASURY, 0, c.Signed(-input.valueIn), Debit(input, None)))
    else if input.prevOut !in prevOuts then Fail(MissingPrevOut)
    else
      var prev := prevOuts[input.prevOut];
      match accountOf(prev.version, prev.pkScript)
      case None => Fail(BadScript)
      case Some(account) =>
        if account == [] then Skip
        else Emit(Op(c, i, account, 0, c.Signed(-prev.amount), Debit(input, Some(prev))))
  }

  /** What the iteration does with output i. */
  function OutStep(accountOf: AccountOf, c: TxContext, i: nat): Step
    requires i < |c.tx.outs|
  {
    var out := c.tx.outs[i];
    if out.value == 0 then Skip
    else
      var account := if (c.IsTreasuryAdd() || c.IsTreasuryBase()) && i == 0 then Some(TREASURY)
                     else accountOf(out.version, out.pkScript);
      match account
      case None => Fail(BadScript)
      case Some(account) =>
        if account == [] then Skip
        else Emit(Op(c, i, account, 0, c.Signed(out.value), Credit(out)))
  }

  function InSteps(accountOf: AccountOf, c: TxContext, prevOuts: map<OutPoint, PrevOutput>): (r: seq<Step>)
    ensures |r| == |c.tx.ins|
  {
    seq(|c.tx.ins|, i requires 0 <= i < |c.tx.ins| => InStep(accountOf, c, prevOuts, i))
  }

  function OutSteps(accountOf: AccountOf, c: TxContext): (r: seq<Step>)
    ensures |r| == |c.tx.outs|
  {
    seq(|c.tx.outs|, i requires 0 <= i < |c.tx.outs| => OutStep(accountOf, c, i))
  }

  /** Inputs come first, except when the transaction is being reversed. */
  function TxSteps(accountOf: AccountOf, c: TxContext, prevOuts: map<OutPoint, PrevOutput>): seq<Step> {
    if c.status.Success? then InSteps(accountOf, c, prevOuts) + OutSteps(accountOf, c)
    else OutSteps(accountOf, c) + InSteps(accountOf, c, prevOuts)
  }

  /** One turn of a loop: emitted ops are numbered by their position within the transaction. */
  function Advance(e: Emission, s: Step): Emission {
    if e.err.Some? then e else
      match s
      case Skip => e
      case Fail(err) => Emission(e.ops, Some(err))
      case Emit(op) => Emission(e.ops + [op.(opIndex := |e.ops|)], None)
  }

  function AdvanceAll(e: Emission, steps: seq<Step>): Emission {
    if steps == [] then e
    else Advance(AdvanceAll(e, steps[..|steps| - 1]), steps[|steps| - 1])
  }

  lemma {:induction false} AdvanceAllConcat(e: Emission, a: seq<Step>, b: seq<Step>)
    ensures AdvanceAll(e, a + b) == AdvanceAll(AdvanceAll(e, a), b)
  {
    if b == [] {
      assert a + b == a;
    } else {
      var b' := b[..|b| - 1];
      assert (a + b)[..|a + b| - 1] == a + b';
      AdvanceAllConcat(e, a, b');
    }
  }

  lemma {:induction false} AdvanceAllStopped(e: Emission, steps: seq<Step>)
    requires e.err.Some?
    ensures AdvanceAll(e, steps) == e
  {
    if steps != [] {
      AdvanceAllStopped(e, steps[..|steps| - 1]);
    }
  }

  method AddTxIns(accountOf: AccountOf, c: TxContext, prevOuts: map<OutPoint, PrevOutput>, start: Emission)
    returns (e: Emission)
    requires start.err.None?
    ensures e == AdvanceAll(start, InSteps(accountOf, c, prevOuts))
  {
    ghost var steps := InSteps(accountOf, c, prevOuts);
    e := start;
    for i := 0 to |c.tx.ins|
      invariant e.err.None?
      invariant e == AdvanceAll(start, steps[..i])
    {
      assert steps[..i + 1][..i] == steps[..i];
      var input := c.tx.ins[i];
      var op;
      if i == 0 && c.SkipsFirstInput() {
        continue;
      }
      if c.IsTreasurySpend() {
        op := Op(c, i, TREASURY, |e.ops|, -input.valueIn, Debit(input, None));
      } else {
        if input.prevOut !in prevOuts {
          e := Emission(e.ops, Some(MissingPrevOut));
          StopEarly(start, steps, i, e);
          return;
        }
        var prev := prevOuts[input.prevOut];
        var account := accountOf(prev.version, prev.pkScript);
        if account.None? {
          e := Emission(e.ops, Some(BadScript));
          StopEarly(start, steps, i, e);
          return;
        }
        if account.value == [] {
          continue;
        }
        op := Op(c, i, account.value, |e.ops|, -prev.amount, Debit(input, Some(prev)));
      }
      if c.status.Reversed? {
        op := op.(amount := -op.amount);
      }
      e := Emission(e.ops + [op], None);
    }
    assert steps[..|steps|] == steps;
  }

  method AddTxOuts(accountOf: AccountOf, c: TxContext, start: Emission) returns (e: Emission)
    requires start.err.None?
    ensures e == AdvanceAll(start, OutSteps(accountOf, c))
  {
    ghost var steps := OutSteps(accountOf, c);
    e := start;
    for i := 0 to |c.tx.outs|
      invariant e.err.None?
      invariant e == AdvanceAll(start, steps[..i])
    {
      assert steps[..i + 1][..i] == steps[..i];
      var out := c.tx.outs[i];
      if out.value == 0 {
        continue;
      }
      var account := TREASURY;
      if !((c.IsTreasuryAdd() || c.IsTreasuryBase()) && i == 0) {
        var resolved := accountOf(out.version, out.pkScript);
        if resolved.None? {
          e := Emission(e.ops, Some(BadScript));
          StopEarly(start, steps, i, e);
          return;
        }
        account := resolved.value;
        if account == [] {
          continue;
        }
      }
      var amount := out.value;
      if c.status.Reversed? {
        amount := -amount;
      }
      e := Emission(e.ops + [Op(c, i, account, |e.ops|, amount, Credit(out))], None);
    }
    assert steps[..|steps|] == steps;
  }

  lemma StopEarly(start: Emission, steps: seq<Step>, i: nat, e: Emission)
    requires i < |steps| && e.err.Some?
    requires e == Advance(AdvanceAll(start, steps[..i]), steps[i])
    ensures e == AdvanceAll(start, steps)
  {
    assert steps[..i + 1][..i] == steps[..i];
    assert steps == steps[..i + 1] + steps[i + 1..];
    AdvanceAllConcat(start, steps[..i + 1], steps[i + 1..]);
    AdvanceAllStopped(e, steps[i + 1..]);
  }

  /** Iterates over one transaction whose spent outputs were already fetched. */
  method IterateTx(accountOf: AccountOf, c: TxContext, prevOuts: map<OutPoint, PrevOutput>) returns (e: Emission)
    ensures e == AdvanceAll(NOTHING, TxSteps(accountOf, c, prevOuts))
  {
    ghost var ins, outs := InSteps(accountOf, c, prevOuts), OutSteps(accountOf, c);
    if c.status.Success? {
      AdvanceAllConcat(NOTHING, ins, outs);
      e := AddTxIns(accountOf, c, prevOuts, NOTHING);
      if e.err.Some? {
        AdvanceAllStopped(e, outs);
        return;
      }
      e := AddTxOuts(accountOf, c, e);
    } else {
      AdvanceAllConcat(NOTHING, outs, ins);
      e := AddTxOuts(accountOf, c, NOTHING);
      if e.err.Some? {
        AdvanceAllStopped(e, ins);
        return;
      }
      e := AddTxIns(accountOf, c, prevOuts, e);
    }
  }

  /* ----- Whole blocks ----- */

  function TxEmission(accountOf: AccountOf, txs: map<Hash, Tx>, c: TxContext): Emission {
    match Fetch(txs, c.Targets())
    case None => Emission([], Some(PrevOutNotFound))
    case Some(prevOuts) => AdvanceAll(NOTHING, TxSteps(accountOf, c, prevOuts))
  }

  function Then(a: Emission, b: Emission): Emission {
    if a.err.Some? then a else Emission(a.ops + b.ops, b.err)
  }

  function TxsEmission(accountOf: AccountOf, txs: map<Hash, Tx>, tree: Int8, status: OpStatus,
      list: seq<Tx>): Emission {
    if list == [] then NOTHING else
      var n := |list| - 1;
      Then(TxsEmission(accountOf, txs, tree, status, list[..n]),
           TxEmission(accountOf, txs, TxContext(tree, status, list[n], n)))
  }

  /** All operations of block b; a disapproving block first reverses its parent's regular transactions. */
  function BlockEmission(accountOf: AccountOf, txs: map<Hash, Tx>, b: Block, prev: Option<Block>): Emission {
    var approves := ApprovesParent(b.voteBits) || b.height == 0;
    if !approves && prev.None? then Emission([], Some(NeedsPreviousBlock)) else
      var undone := if approves then NOTHING
                    else TxsEmission(accountOf, txs, TREE_REGULAR, Reversed, prev.value.txs);
      Then(Then(undone, TxsEmission(accountOf, txs, TREE_REGULAR, Success, b.txs)),
           TxsEmission(accountOf, txs, TREE_STAKE, Success, b.stxs))
  }

  /** The total an operation list moves into (or, when negative, out of) an account. */
  function OpSum(ops: seq<Op>, a: Account): int {
    if ops == [] then 0 else
      var op := ops[|ops| - 1];
      OpSum(ops[..|ops| - 1], a) + if op.account == a then op.amount else 0
  }

  lemma {:induction false} OpSumConcat(x: seq<Op>, y: seq<Op>, a: Account)
    ensures OpSum(x + y, a) == OpSum(x, a) + OpSum(y, a)
  {
    if y == [] {
      assert x + y == x;
    } else {
      assert (x + y)[..|x + y| - 1] == x + y[..|y| - 1];
      OpSumConcat(x, y[..|y| - 1], a);
    }
  }

  /* ----- Each transaction's ops, without the running index ----- */

  function Bare(op: Op): Op {
    op.(opIndex := 0)
  }

  /** The op that undoes op when its transaction is reversed. */
  function Mirror(op: Op): Op {
    op.(opIndex := 0, ctx := op.ctx.(status := Reversed), amount := -op.amount)
  }

  function Bares(ops: seq<Op>): (r: seq<Op>)
    ensures |r| == |ops|
    ensures forall i | 0 <= i < |ops| :: r[i] == Bare(ops[i])
  {
    if ops == [] then [] else Bares(ops[..|ops| - 1]) + [Bare(ops[|ops| - 1])]
  }

  function Mirrors(ops: seq<Op>): (r: seq<Op>)
    ensures |r| == |ops|
    ensures forall i | 0 <= i < |ops| :: r[i] == Mirror(ops[i])
  {
    if ops == [] then [] else Mirrors(ops[..|ops| - 1]) + [Mirror(ops[|ops| - 1])]
  }

  ghost predicate NoFail(steps: seq<Step>) {
    forall i | 0 <= i < |steps| :: !steps[i].Fail?
  }

  lemma NoFailConcat(a: seq<Step>, b: seq<Step>)
    ensures NoFail(a + b) <==> NoFail(a) && NoFail(b)
  {
    if NoFail(a + b) {
      forall i | 0 <= i < |a| ensures !a[i].Fail? {
        assert (a + b)[i] == a[i];
      }
      forall i | 0 <= i < |b| ensures !b[i].Fail? {
        assert (a + b)[|a| + i] == b[i];
      }
    }
  }

  function Emits(steps: seq<Step>): seq<Op> {
    if steps == [] then [] else
      var s := steps[|steps| - 1];
      Emits(steps[..|steps| - 1]) + if s.Emit? then [Bare(s.op)] else []
  }

  lemma {:induction false} EmitsConcat(a: seq<Step>, b: seq<Step>)
    ensures Emits(a + b) == Emits(a) + Emits(b)
  {
    if b == [] {
      assert a + b == a;
    } else {
      assert (a + b)[..|a + b| - 1] == a + b[..|b| - 1];
      EmitsConcat(a, b[..|b| - 1]);
    }
  }

  /** An iteration succeeds exactly when no step fails, and then emits the emitting steps, numbered from 0. */
  lemma {:induction false} AdvanceAllEmits(steps: seq<Step>)
    ensures var e := AdvanceAll(NOTHING, steps);
            && (e.err.None? <==> NoFail(steps))
            && (forall i | 0 <= i < |e.ops| :: e.ops[i].opIndex == i)
            && (NoFail(steps) ==> Bares(e.ops) == Emits(steps))
  {
    if steps != [] {
      var front, last := steps[..|steps| - 1], steps[|steps| - 1];
      AdvanceAllEmits(front);
      assert steps == front + [last];
      assert NoFail(steps) <==> NoFail(front) && !last.Fail?;
    }
  }

  ghost predicate StepsMirror(a: seq<Step>, b: seq<Step>) {
    && |a| == |b|
    && forall i | 0 <= i < |a| ::
         && a[i].Fail? == b[i].Fail?
         && a[i].Emit? == b[i].Emit?
         && (a[i].Emit? ==> b[i].op == Mirror(a[i].op))
  }

  lemma MirrorsSnoc(ops: seq<Op>, op: Op)
    ensures Mirrors(ops + [op]) == Mirrors(ops) + [Mirror(op)]
  {
    assert (ops + [op])[..|ops|] == ops;
  }

  lemma {:induction false} EmitsMirror(a: seq<Step>, b: seq<Step>)
    requires StepsMirror(a, b)
    ensures Emits(b) == Mirrors(Emits(a))
  {
    if a != [] {
      var n := |a| - 1;
      EmitsMirror(a[..n], b[..n]);
      if a[n].Emit? {
        MirrorsSnoc(Emits(a[..n]), Bare(a[n].op));
      }
    }
  }

  lemma {:induction false} OpSumBares(ops: seq<Op>, a: Account)
    ensures OpSum(Bares(ops), a) == OpSum(ops, a)
  {
    if ops != [] {
      assert Bares(ops)[..|ops| - 1] == Bares(ops[..|ops| - 1]);
      OpSumBares(ops[..|ops| - 1], a);
    }
  }

  lemma {:induction false} OpSumMirrors(ops: seq<Op>, a: Account)
    ensures OpSum(Mirrors(ops), a) == -OpSum(ops, a)
  {
    if ops != [] {
      assert Mirrors(ops)[..|ops| - 1] == Mirrors(ops[..|ops| - 1]);
      OpSumMirrors(ops[..|ops| - 1], a);
    }
  }

  lemma {:induction false} EmitsOnly(steps: seq<Step>, debit: bool)
    requires StepsOn(steps, debit)
    ensures AllDebits(Emits(steps), debit)
  {
    if steps != [] {
      EmitsOnly(steps[..|steps| - 1], debit);
    }
  }

  /** undone holds the mirror images of done's outputs, then those of its k leading inputs. */
  ghost predicate MirrorsWithOutputsFirst(done: seq<Op>, undone: seq<Op>, k: nat) {
    && k <= |done|
    && AllDebits(done[..k], true) && AllDebits(done[k..], false)
    && Bares(undone) == Mirrors(done[k..]) + Mirrors(done[..k])
  }

  lemma AdvanceAllParts(a: seq<Step>, b: seq<Step>)
    ensures var e := AdvanceAll(NOTHING, a + b);
            && (e.err.None? <==> NoFail(a) && NoFail(b))
            && (e.err.None? ==> Bares(e.ops) == Emits(a) + Emits(b))
  {
    AdvanceAllEmits(a + b);
    EmitsConcat(a, b);
    NoFailConcat(a, b);
  }

  lemma NoFailMirror(a: seq<Step>, b: seq<Step>)
    requires StepsMirror(a, b)
    ensures NoFail(a) <==> NoFail(b)
  {
  }

  ghost predicate StepsOn(steps: seq<Step>, debit: bool) {
    forall i | 0 <= i < |steps| && steps[i].Emit? :: steps[i].op.side.Debit? == debit
  }

  lemma MirroredSteps(ins: seq<Step>, outs: seq<Step>, ins': seq<Step>, outs': seq<Step>)
    requires StepsMirror(ins, ins') && StepsMirror(outs, outs')
    requires StepsOn(ins, true) && StepsOn(outs, false)
    ensures var done, undone := AdvanceAll(NOTHING, ins + outs), AdvanceAll(NOTHING, outs' + ins');
            && (done.err.None? <==> undone.err.None?)
            && (done.err.None? ==> MirrorsWithOutputsFirst(done.ops, undone.ops, |Emits(ins)|))
  {
    AdvanceAllParts(ins, outs);
    AdvanceAllParts(outs', ins');
    NoFailMirror(ins, ins');
    NoFailMirror(outs, outs');
    var done, undone := AdvanceAll(NOTHING, ins + outs), AdvanceAll(NOTHING, outs' + ins');
    if done.err.None? {
      EmitsMirror(ins, ins');
      EmitsMirror(outs, outs');
      EmitsOnly(ins, true);
      EmitsOnly(outs, false);
      SplitMirror(done.ops, Emits(ins), Emits(outs));
    }
  }

  lemma StepsMirrored(accountOf: AccountOf, c: TxContext, prevOuts: map<OutPoint, PrevOutput>)
    requires c.status.Success?
    ensures var c' := c.(status := Reversed);
            && StepsMirror(InSteps(accountOf, c, prevOuts), InSteps(accountOf, c', prevOuts))
            && StepsMirror(OutSteps(accountOf, c), OutSteps(accountOf, c'))
    ensures StepsOn(InSteps(accountOf, c, prevOuts), true) && StepsOn(OutSteps(accountOf, c), false)
  {
  }

  /** Reversing a transaction emits the same inputs and outputs with opposite amounts, outputs first. */
  lemma ReversedTxMirrors(accountOf: AccountOf, txs: map<Hash, Tx>, tree: Int8, tx: Tx, i: int)
    ensures var done := TxEmission(accountOf, txs, TxContext(tree, Success, tx, i));
            var undone := TxEmission(accountOf, txs, TxContext(tree, Reversed, tx, i));
            && (done.err.None? <==> undone.err.None?)
            && (done.err.None? ==> exists k :: MirrorsWithOutputsFirst(done.ops, undone.ops, k))
  {
    var c, c' := TxContext(tree, Success, tx, i), TxContext(tree, Reversed, tx, i);
    assert c.Targets() == c'.Targets();
    var fetched := Fetch(txs, c.Targets());
    if fetched.Some? {
      StepsMirrored(accountOf, c, fetched.value);
      MirroredSteps(InSteps(accountOf, c, fetched.value), OutSteps(accountOf, c),
                    InSteps(accountOf, c', fetched.value), OutSteps(accountOf, c'));
    }
  }

  ghost predicate AllDebits(ops: seq<Op>, debit: bool) {
    forall i | 0 <= i < |ops| :: ops[i].side.Debit? == debit
  }

  lemma {:induction false} BaresConcat(a: seq<Op>, b: seq<Op>)
    ensures Bares(a + b) == Bares(a) + Bares(b)
  {
  }

  lemma MirrorsOfBares(ops: seq<Op>)
    ensures Mirrors(Bares(ops)) == Mirrors(ops)
  {
  }

  lemma SplitMirror(ops: seq<Op>, x: seq<Op>, y: seq<Op>)
    requires Bares(ops) == x + y
    requires AllDebits(x, true) && AllDebits(y, false)
    ensures |x| <= |ops|
    ensures AllDebits(ops[..|x|], true) && AllDebits(ops[|x|..], false)
    ensures Mirrors(x) == Mirrors(ops[..|x|]) && Mirrors(y) == Mirrors(ops[|x|..])
  {
    hide Mirrors, Bares, AllDebits;
    SplitBares(ops, x, y);
    var a, b := ops[..|x|], ops[|x|..];
    MirrorsOfBares(a);
    MirrorsOfBares(b);
    BaresSides(a, true);
    BaresSides(b, false);
  }

  lemma BaresSides(ops: seq<Op>, debit: bool)
    requires AllDebits(Bares(ops), debit)
    ensures AllDebits(ops, debit)
  {
    forall i | 0 <= i < |ops| ensures ops[i].side.Debit? == debit {
      assert Bares(ops)[i].side.Debit? == debit;
    }
  }

  lemma MirrorsCancel(done: seq<Op>, undone: seq<Op>, k: nat, a: Account)
    requires MirrorsWithOutputsFirst(done, undone, k)
    ensures OpSum(undone, a) == -OpSum(done, a)
  {
    hide OpSum, Mirrors, Bares;
    assert done == done[..k] + done[k..];
    OpSumBares(undone, a);
    OpSumConcat(Mirrors(done[k..]), Mirrors(done[..k]), a);
    OpSumMirrors(done[k..], a);
    OpSumMirrors(done[..k], a);
    OpSumConcat(done[..k], done[k..], a);
  }

  /** Disapproval cancels: the reversed list moves, for every account, exactly the opposite amounts. */
  lemma {:induction false} ReversalCancels(accountOf: AccountOf, txs: map<Hash, Tx>, tree: Int8, list: seq<Tx>,
      a: Account)
    ensures var done := TxsEmission(accountOf, txs, tree, Success, list);
            var undone := TxsEmission(accountOf, txs, tree, Reversed, list);
            && (done.err.None? <==> undone.err.None?)
            && (done.err.None? ==> OpSum(undone.ops, a) == -OpSum(done.ops, a))
  {
    if list != [] {
      var n := |list| - 1;
      ReversalCancels(accountOf, txs, tree, list[..n], a);
      ReversedTxMirrors(accountOf, txs, tree, list[n], n);
      var last := TxEmission(accountOf, txs, TxContext(tree, Success, list[n], n));
      var last' := TxEmission(accountOf, txs, TxContext(tree, Reversed, list[n], n));
      if last.err.None? {
        var k :| MirrorsWithOutputsFirst(last.ops, last'.ops, k);
        MirrorsCancel(last.ops, last'.ops, k, a);
        OpSumConcat(TxsEmission(accountOf, txs, tree, Success, list[..n]).ops, last.ops, a);
        OpSumConcat(TxsEmission(accountOf, txs, tree, Reversed, list[..n]).ops, last'.ops, a);
      }
    }
  }

  /* ----- Exactly which inputs and outputs have an operation ----- */

  /** Emitting steps name their own position. */
  ghost predicate Placed(steps: seq<Step>) {
    forall i | 0 <= i < |steps| && steps[i].Emit? :: steps[i].op.ioIndex == i
  }

  /** The emitted ops are those of the emitting positions, in increasing order. */
  ghost predicate EmittedInOrder(steps: seq<Step>, ops: seq<Op>) {
    && (forall k | 0 <= k < |ops| ::
          ops[k].ioIndex < |steps| && steps[ops[k].ioIndex].Emit? && ops[k] == Bare(steps[ops[k].ioIndex].op))
    && (forall j, k | 0 <= j < k < |ops| :: ops[j].ioIndex < ops[k].ioIndex)
    && (forall i | 0 <= i < |steps| && steps[i].Emit? :: exists k :: 0 <= k < |ops| && ops[k].ioIndex == i)
  }

  lemma EmittedInOrderSnoc(steps: seq<Step>, ops: seq<Op>, s: Step)
    requires EmittedInOrder(steps, ops) && (s.Emit? ==> s.op.ioIndex == |steps|)
    ensures EmittedInOrder(steps + [s], ops + if s.Emit? then [Bare(s.op)] else [])
  {
    var steps', ops' := steps + [s], ops + if s.Emit? then [Bare(s.op)] else [];
    forall i | 0 <= i < |steps'| && steps'[i].Emit? ensures exists k :: 0 <= k < |ops'| && ops'[k].ioIndex == i {
      if i < |steps| {
        var k :| 0 <= k < |ops| && ops[k].ioIndex == i;
        assert ops'[k] == ops[k];
      } else {
        assert ops'[|ops|].ioIndex == i;
      }
    }
  }

  lemma {:induction false} EmitsPlaced(steps: seq<Step>)
    requires Placed(steps)
    ensures EmittedInOrder(steps, Emits(steps))
  {
    if steps != [] {
      hide EmittedInOrder;
      var n := |steps| - 1;
      EmitsPlaced(steps[..n]);
      EmittedInOrderSnoc(steps[..n], Emits(steps[..n]), steps[n]);
      assert steps == steps[..n] + [steps[n]];
    } else {
      assert EmittedInOrder([], []);
    }
  }

  /** ops holds one op for each position whose owner is an account, in order, and none for the others. */
  ghost predicate OnePerOwner(ops: seq<Op>, owners: seq<Account>) {
    && (forall k | 0 <= k < |ops| :: ops[k].ioIndex < |owners| && owners[ops[k].ioIndex] == ops[k].account != [])
    && (forall i | 0 <= i < |owners| && owners[i] != [] :: exists k :: 0 <= k < |ops| && ops[k].ioIndex == i)
    && (forall j, k | 0 <= j < k < |ops| :: ops[j].ioIndex < ops[k].ioIndex)
  }

  lemma EmitsOnePerOwner(steps: seq<Step>, owners: seq<Account>)
    requires Placed(steps) && |owners| == |steps|
    requires forall i | 0 <= i < |steps| :: steps[i].Emit? <==> owners[i] != []
    requires forall i | 0 <= i < |steps| && steps[i].Emit? :: steps[i].op.account == owners[i]
    ensures OnePerOwner(Emits(steps), owners)
  {
    EmitsPlaced(steps);
    forall i | 0 <= i < |owners| && owners[i] != []
      ensures exists k :: 0 <= k < |Emits(steps)| && Emits(steps)[k].ioIndex == i
    {
      assert steps[i].Emit?;
    }
  }

  /** What an input or output is about: nothing, the treasury, or the account that owns the output. */
  datatype Role = Ignored | Treasury | Owned

  /** Input i of transaction number txIndex of a tree (0 is the regular one, 1 the stake one), by the type it has. */
  function InputRole(txType: TxType, tree: Int8, txIndex: int, i: nat): Role {
    match txType
    case Vote => if i == 0 then Ignored else Owned
    case Regular => if i == 0 && txIndex == 0 && tree != 1 then Ignored else Owned
    case TreasuryBase => if i == 0 && txIndex == 0 && tree == 1 then Ignored else Owned
    case TreasurySpend => if tree == 1 then Treasury else Owned
    case Ticket => Owned
    case Revocation => Owned
    case TreasuryAdd => Owned
  }

  function OutputRole(txType: TxType, tree: Int8, txIndex: int, i: nat): Role {
    match txType
    case TreasuryAdd => if i == 0 && tree == 1 then Treasury else Owned
    case TreasuryBase => if i == 0 && txIndex == 0 && tree == 1 then Treasury else Owned
    case Regular => Owned
    case Ticket => Owned
    case Vote => Owned
    case Revocation => Owned
    case TreasurySpend => Owned
  }

  /** Whether the output that input i spends must be looked up: even treasury spends look up all but their first. */
  function LooksUp(txType: TxType, tree: Int8, txIndex: int, i: nat): bool {
    match InputRole(txType, tree, txIndex, i)
    case Ignored => false
    case Treasury => i > 0
    case Owned => true
  }

  /** The outpoints fetched for a transaction are those of the inputs that must be looked up. */
  lemma TargetsAre(c: TxContext, o: OutPoint)
    ensures o in c.Targets() <==>
            exists i :: 0 <= i < |c.tx.ins| && LooksUp(c.tx.txType, c.tree, c.txIndex, i) && c.tx.ins[i].prevOut == o
  {
    var ins, targets := c.tx.ins, c.Targets();
    var skipped := if targets != [] && |targets| < |ins| then 1 else 0;
    if o in targets {
      var k :| 0 <= k < |targets| && targets[k] == o;
      assert LooksUp(c.tx.txType, c.tree, c.txIndex, k + skipped) && ins[k + skipped].prevOut == o;
    }
    if i :| 0 <= i < |ins| && LooksUp(c.tx.txType, c.tree, c.txIndex, i) && ins[i].prevOut == o {
      assert targets[i - skipped] == o;
    }
  }

  /** The account each input debits, or none: the treasury for its spends, else the owner of the spent output. */
  function Debtors(accountOf: AccountOf, txs: map<Hash, Tx>, c: TxContext): (r: seq<Account>)
    ensures |r| == |c.tx.ins|
  {
    seq(|c.tx.ins|, i requires 0 <= i < |c.tx.ins| =>
      match InputRole(c.tx.txType, c.tree, c.txIndex, i)
      case Ignored => []
      case Treasury => TREASURY
      case Owned =>
        match Lookup(txs, c.tx.ins[i].prevOut)
        case None => []
        case Some(prev) => accountOf(prev.version, prev.pkScript).UnwrapOr([]))
  }

  /** The account each output credits, or none. */
  function Creditors(accountOf: AccountOf, c: TxContext): (r: seq<Account>)
    ensures |r| == |c.tx.outs|
  {
    seq(|c.tx.outs|, i requires 0 <= i < |c.tx.outs| =>
      if c.tx.outs[i].value == 0 then [] else
        match OutputRole(c.tx.txType, c.tree, c.txIndex, i)
        case Ignored => []
        case Treasury => TREASURY
        case Owned => accountOf(c.tx.outs[i].version, c.tx.outs[i].pkScript).UnwrapOr([]))
  }

  /** The input that spends an output debits the account which that output credited. */
  lemma SpenderIsOwner(accountOf: AccountOf, txs: map<Hash, Tx>, c: TxContext, i: nat, d: TxContext, j: nat)
    requires Known(txs, [c.tx]) && i < |c.tx.outs| && j < |d.tx.ins|
    requires d.tx.ins[j].prevOut.hash == c.tx.hash && d.tx.ins[j].prevOut.index == i
    requires OutputRole(c.tx.txType, c.tree, c.txIndex, i).Owned? && InputRole(d.tx.txType, d.tree, d.txIndex, j).Owned?
    ensures var out := c.tx.outs[i];
            Lookup(txs, d.tx.ins[j].prevOut) == Some(PrevOutput(out.pkScript, out.version, out.value))
    ensures c.tx.outs[i].value != 0 ==> Debtors(accountOf, txs, d)[j] == Creditors(accountOf, c)[i]
  {
    assert c.tx in [c.tx];
  }

  /** Input i can be translated: what it must look up is in the index, and the script concerned converts. */
  ghost predicate InputTranslates(accountOf: AccountOf, txs: map<Hash, Tx>, c: TxContext, i: nat)
    requires i < |c.tx.ins|
  {
    var prev := Lookup(txs, c.tx.ins[i].prevOut);
    && (LooksUp(c.tx.txType, c.tree, c.txIndex, i) ==> prev.Some?)
    && (InputRole(c.tx.txType, c.tree, c.txIndex, i).Owned? && prev.Some? ==>
          accountOf(prev.value.version, prev.value.pkScript).Some?)
  }

  ghost predicate OutputTranslates(accountOf: AccountOf, c: TxContext, i: nat)
    requires i < |c.tx.outs|
  {
    var out := c.tx.outs[i];
    out.value != 0 && OutputRole(c.tx.txType, c.tree, c.txIndex, i).Owned? ==>
      accountOf(out.version, out.pkScript).Some?
  }

  ghost predicate Translates(accountOf: AccountOf, txs: map<Hash, Tx>, c: TxContext) {
    && (forall i | 0 <= i < |c.tx.ins| :: InputTranslates(accountOf, txs, c, i))
    && (forall i | 0 <= i < |c.tx.outs| :: OutputTranslates(accountOf, c, i))
  }

  lemma FetchIff(txs: map<Hash, Tx>, c: TxContext)
    ensures Fetch(txs, c.Targets()).Some? <==>
            forall i | 0 <= i < |c.tx.ins| && LooksUp(c.tx.txType, c.tree, c.txIndex, i) ::
              Lookup(txs, c.tx.ins[i].prevOut).Some?
  {
    hide Lookup, LooksUp;
    var targets := c.Targets();
    if Fetch(txs, targets).Some? {
      forall i | 0 <= i < |c.tx.ins| && LooksUp(c.tx.txType, c.tree, c.txIndex, i)
        ensures Lookup(txs, c.tx.ins[i].prevOut).Some?
      {
        TargetsAre(c, c.tx.ins[i].prevOut);
      }
    } else {
      var o :| o in targets && Lookup(txs, o).None?;
      TargetsAre(c, o);
    }
  }

  lemma InStepsFail(accountOf: AccountOf, txs: map<Hash, Tx>, c: TxContext)
    requires Fetch(txs, c.Targets()).Some?
    ensures NoFail(InSteps(accountOf, c, Fetch(txs, c.Targets()).value)) <==>
            forall i | 0 <= i < |c.tx.ins| :: InputTranslates(accountOf, txs, c, i)
  {
    var fetched := Fetch(txs, c.Targets()).value;
    var steps := InSteps(accountOf, c, fetched);
    forall i | 0 <= i < |steps| ensures steps[i].Fail? <==> !InputTranslates(accountOf, txs, c, i) {
      TargetsAre(c, c.tx.ins[i].prevOut);
    }
  }

  lemma OutStepsFail(accountOf: AccountOf, c: TxContext)
    ensures NoFail(OutSteps(accountOf, c)) <==> forall i | 0 <= i < |c.tx.outs| :: OutputTranslates(accountOf, c, i)
  {
    var steps := OutSteps(accountOf, c);
    forall i | 0 <= i < |steps| ensures steps[i].Fail? <==> !OutputTranslates(accountOf, c, i) {
    }
  }

  /** A transaction is translated iff all outputs to look up are known and all scripts concerned convert. */
  lemma TxTranslatesIff(accountOf: AccountOf, txs: map<Hash, Tx>, c: TxContext)
    ensures TxEmission(accountOf, txs, c).err.None? <==> Translates(accountOf, txs, c)
  {
    hide InSteps, OutSteps, NoFail, Fetch, AdvanceAll, LooksUp, Lookup;
    FetchIff(txs, c);
    if Fetch(txs, c.Targets()).Some? {
      var ins, outs := InSteps(accountOf, c, Fetch(txs, c.Targets()).value), OutSteps(accountOf, c);
      AdvanceAllParts(ins, outs);
      AdvanceAllParts(outs, ins);
      InStepsFail(accountOf, txs, c);
      OutStepsFail(accountOf, c);
    } else {
      var i :| 0 <= i < |c.tx.ins| && LooksUp(c.tx.txType, c.tree, c.txIndex, i) &&
                Lookup(txs, c.tx.ins[i].prevOut).None?;
      assert !InputTranslates(accountOf, txs, c, i);
    }
  }

  ghost predicate FailsWith(steps: seq<Step>, err: OpError) {
    exists i :: 0 <= i < |steps| && steps[i] == Fail(err)
  }

  lemma {:induction false} AdvanceAllError(e: Emission, steps: seq<Step>)
    requires e.err.None?
    ensures AdvanceAll(e, steps).err.Some? ==> FailsWith(steps, AdvanceAll(e, steps).err.value)
  {
    if steps != [] {
      var n := |steps| - 1;
      AdvanceAllError(e, steps[..n]);
      if AdvanceAll(e, steps[..n]).err.Some? {
        var i :| 0 <= i < n && steps[..n][i] == Fail(AdvanceAll(e, steps[..n]).err.value);
        assert steps[i] == steps[..n][i];
      }
    }
  }

  /**
   * The error of a transaction: an output to look up is unknown, or else a script does not convert. Finding an input's
   * output missing among those fetched never happens.
   */
  lemma TxErrors(accountOf: AccountOf, txs: map<Hash, Tx>, c: TxContext)
    ensures var err := TxEmission(accountOf, txs, c).err;
            && (err.None? || err == Some(PrevOutNotFound) || err == Some(BadScript))
            && (err == Some(PrevOutNotFound) <==>
                  exists i :: 0 <= i < |c.tx.ins| && LooksUp(c.tx.txType, c.tree, c.txIndex, i) &&
                              Lookup(txs, c.tx.ins[i].prevOut).None?)
  {
    FetchIff(txs, c);
    var fetched := Fetch(txs, c.Targets());
    if fetched.Some? {
      var steps := TxSteps(accountOf, c, fetched.value);
      forall i | 0 <= i < |steps| && steps[i].Fail? ensures steps[i] == Fail(BadScript) {
        StepErrors(accountOf, txs, c);
      }
      hide InSteps, OutSteps, LooksUp, Lookup, Fetch, TxSteps;
      AdvanceAllError(NOTHING, steps);
    }
  }

  lemma StepErrors(accountOf: AccountOf, txs: map<Hash, Tx>, c: TxContext)
    requires Fetch(txs, c.Targets()).Some?
    ensures var steps := TxSteps(accountOf, c, Fetch(txs, c.Targets()).value);
            forall i | 0 <= i < |steps| && steps[i].Fail? :: steps[i] == Fail(BadScript)
  {
    var ins, outs := InSteps(accountOf, c, Fetch(txs, c.Targets()).value), OutSteps(accountOf, c);
    forall i | 0 <= i < |ins| && ins[i].Fail? ensures ins[i] == Fail(BadScript) {
      TargetsAre(c, c.tx.ins[i].prevOut);
    }
    forall i | 0 <= i < |outs| && outs[i].Fail? ensures outs[i] == Fail(BadScript) {
    }
  }

  ghost predicate AllTranslate(accountOf: AccountOf, txs: map<Hash, Tx>, tree: Int8, status: OpStatus, list: seq<Tx>) {
    forall i | 0 <= i < |list| :: Translates(accountOf, txs, TxContext(tree, status, list[i], i))
  }

  lemma AllTranslateSnoc(accountOf: AccountOf, txs: map<Hash, Tx>, tree: Int8, status: OpStatus, list: seq<Tx>)
    requires list != []
    ensures var n := |list| - 1;
            AllTranslate(accountOf, txs, tree, status, list) <==>
            && AllTranslate(accountOf, txs, tree, status, list[..n])
            && Translates(accountOf, txs, TxContext(tree, status, list[n], n))
  {
    hide Translates;
    var n := |list| - 1;
    assert forall i | 0 <= i < n :: list[..n][i] == list[i];
    if AllTranslate(accountOf, txs, tree, status, list) {
      assert Translates(accountOf, txs, TxContext(tree, status, list[n], n));
      forall i | 0 <= i < n ensures Translates(accountOf, txs, TxContext(tree, status, list[..n][i], i)) {
        assert Translates(accountOf, txs, TxContext(tree, status, list[i], i));
      }
    }
    if AllTranslate(accountOf, txs, tree, status, list[..n]) {
      forall i | 0 <= i < n ensures Translates(accountOf, txs, TxContext(tree, status, list[i], i)) {
        assert Translates(accountOf, txs, TxContext(tree, status, list[..n][i], i));
      }
    }
  }

  lemma {:induction false} TxsTranslateIff(accountOf: AccountOf, txs: map<Hash, Tx>, tree: Int8, status: OpStatus,
                                           list: seq<Tx>)
    ensures TxsEmission(accountOf, txs, tree, status, list).err.None? <==>
            AllTranslate(accountOf, txs, tree, status, list)
  {
    if list != [] {
      hide TxEmission, AllTranslate, Translates;
      var n := |list| - 1;
      TxsTranslateIff(accountOf, txs, tree, status, list[..n]);
      TxTranslatesIff(accountOf, txs, TxContext(tree, status, list[n], n));
      AllTranslateSnoc(accountOf, txs, tree, status, list);
    }
  }

  /**
   * A block is translated iff all its transactions are, and, unless bit 0 of its votes approves the parent or it is at
   * height 0, the previous block is given and its regular transactions translate too.
   */
  lemma BlockTranslatesIff(accountOf: AccountOf, txs: map<Hash, Tx>, b: Block, prev: Option<Block>)
    ensures BlockEmission(accountOf, txs, b, prev).err.None? <==>
            && AllTranslate(accountOf, txs, 0, Success, b.txs)
            && AllTranslate(accountOf, txs, 1, Success, b.stxs)
            && (b.voteBits as bv16 & 1 == 0 && b.height != 0 ==>
                  prev.Some? && AllTranslate(accountOf, txs, 0, Reversed, prev.value.txs))
    ensures BlockEmission(accountOf, txs, b, prev).err == Some(NeedsPreviousBlock) <==>
            b.voteBits as bv16 & 1 == 0 && b.height != 0 && prev.None?
  {
    hide TxsEmission, AllTranslate;
    BitZero(b.voteBits);
    TxsTranslateIff(accountOf, txs, TREE_REGULAR, Success, b.txs);
    TxsTranslateIff(accountOf, txs, TREE_STAKE, Success, b.stxs);
    TxsNoNeed(accountOf, txs, TREE_REGULAR, Success, b.txs);
    TxsNoNeed(accountOf, txs, TREE_STAKE, Success, b.stxs);
    if prev.Some? {
      TxsTranslateIff(accountOf, txs, TREE_REGULAR, Reversed, prev.value.txs);
      TxsNoNeed(accountOf, txs, TREE_REGULAR, Reversed, prev.value.txs);
    }
  }

  /** The treasury's account is "*treasury". */
  lemma TreasuryName()
    ensures |TREASURY| == |"*treasury"| && forall i | 0 <= i < |TREASURY| :: TREASURY[i] as char == "*treasury"[i]
  {
  }

  /** Only bit 0 of the votes counts. */
  lemma BitZero(voteBits: UInt16)
    ensures ApprovesParent(voteBits) <==> voteBits as bv16 & 1 == 1
    ensures !ApprovesParent(voteBits) <==> voteBits as bv16 & 1 == 0
  {
  }

  lemma {:induction false} AdvanceAllNoNeed(e: Emission, steps: seq<Step>)
    requires e.err != Some(NeedsPreviousBlock)
    requires forall i | 0 <= i < |steps| :: steps[i] != Fail(NeedsPreviousBlock)
    ensures AdvanceAll(e, steps).err != Some(NeedsPreviousBlock)
  {
    if steps != [] {
      AdvanceAllNoNeed(e, steps[..|steps| - 1]);
    }
  }

  lemma TxNoNeed(accountOf: AccountOf, txs: map<Hash, Tx>, c: TxContext)
    ensures TxEmission(accountOf, txs, c).err != Some(NeedsPreviousBlock)
  {
    hide Fetch, AdvanceAll;
    var fetched := Fetch(txs, c.Targets());
    if fetched.Some? {
      AdvanceAllNoNeed(NOTHING, TxSteps(accountOf, c, fetched.value));
    }
  }

  lemma {:induction false} TxsNoNeed(accountOf: AccountOf, txs: map<Hash, Tx>, tree: Int8, status: OpStatus,
                                     list: seq<Tx>)
    ensures TxsEmission(accountOf, txs, tree, status, list).err != Some(NeedsPreviousBlock)
  {
    if list != [] {
      hide TxEmission;
      var n := |list| - 1;
      TxsNoNeed(accountOf, txs, tree, status, list[..n]);
      TxNoNeed(accountOf, txs, TxContext(tree, status, list[n], n));
    }
  }

  lemma InStepsOwned(accountOf: AccountOf, txs: map<Hash, Tx>, c: TxContext)
    requires Fetch(txs, c.Targets()).Some? && NoFail(InSteps(accountOf, c, Fetch(txs, c.Targets()).value))
    ensures OnePerOwner(Emits(InSteps(accountOf, c, Fetch(txs, c.Targets()).value)), Debtors(accountOf, txs, c))
  {
    hide OnePerOwner;
    var fetched := Fetch(txs, c.Targets()).value;
    var steps, owners := InSteps(accountOf, c, fetched), Debtors(accountOf, txs, c);
    forall i | 0 <= i < |steps|
      ensures steps[i].Emit? <==> owners[i] != []
      ensures steps[i].Emit? ==> steps[i].op.account == owners[i]
    {
      assert !steps[i].Fail?;
      InputRoleIs(c, i);
    }
    EmitsOnePerOwner(steps, owners);
  }

  lemma InputRoleIs(c: TxContext, i: nat)
    ensures InputRole(c.tx.txType, c.tree, c.txIndex, i).Ignored? <==> i == 0 && c.SkipsFirstInput()
    ensures InputRole(c.tx.txType, c.tree, c.txIndex, i).Treasury? <==> c.IsTreasurySpend()
    ensures TREASURY != []
  {
  }

  lemma OutStepsOwned(accountOf: AccountOf, c: TxContext)
    requires NoFail(OutSteps(accountOf, c))
    ensures OnePerOwner(Emits(OutSteps(accountOf, c)), Creditors(accountOf, c))
  {
    hide OnePerOwner;
    var steps, owners := OutSteps(accountOf, c), Creditors(accountOf, c);
    forall i | 0 <= i < |steps|
      ensures steps[i].Emit? <==> owners[i] != []
      ensures steps[i].Emit? ==> steps[i].op.account == owners[i]
    {
      assert !steps[i].Fail?;
    }
    EmitsOnePerOwner(steps, owners);
  }

  lemma OnePerOwnerBares(ops: seq<Op>, owners: seq<Account>)
    requires OnePerOwner(Bares(ops), owners)
    ensures OnePerOwner(ops, owners)
  {
    forall i | 0 <= i < |owners| && owners[i] != [] ensures exists k :: 0 <= k < |ops| && ops[k].ioIndex == i {
      var k :| 0 <= k < |Bares(ops)| && Bares(ops)[k].ioIndex == i;
      assert ops[k].ioIndex == i;
    }
    forall k | 0 <= k < |ops| ensures ops[k].ioIndex < |owners| && owners[ops[k].ioIndex] == ops[k].account != [] {
      assert Bares(ops)[k].ioIndex == ops[k].ioIndex;
    }
    forall j, k | 0 <= j < k < |ops| ensures ops[j].ioIndex < ops[k].ioIndex {
      assert Bares(ops)[j].ioIndex < Bares(ops)[k].ioIndex;
    }
  }

  lemma SplitBares(ops: seq<Op>, x: seq<Op>, y: seq<Op>)
    requires Bares(ops) == x + y
    ensures |x| <= |ops| && Bares(ops[..|x|]) == x && Bares(ops[|x|..]) == y
  {
    hide Bares;
    assert |ops| == |x| + |y|;
    var a, b := ops[..|x|], ops[|x|..];
    assert ops == a + b;
    BaresConcat(a, b);
    AppendInjective(Bares(a), Bares(b), x, y);
  }

  /**
   * A translated transaction has one op for each input and each output that belongs to an account, no other ops,
   * and its inputs come before its outputs. (Its reversal has the same ops mirrored, by ReversedTxMirrors.)
   */
  lemma TxOpsExact(accountOf: AccountOf, txs: map<Hash, Tx>, tree: Int8, tx: Tx, i: int)
    returns (debits: seq<Op>, credits: seq<Op>)
    requires TxEmission(accountOf, txs, TxContext(tree, Success, tx, i)).err.None?
    ensures TxEmission(accountOf, txs, TxContext(tree, Success, tx, i)).ops == debits + credits
    ensures AllDebits(debits, true) && AllDebits(credits, false)
    ensures OnePerOwner(debits, Debtors(accountOf, txs, TxContext(tree, Success, tx, i)))
    ensures OnePerOwner(credits, Creditors(accountOf, TxContext(tree, Success, tx, i)))
  {
    hide InSteps, OutSteps, OnePerOwner, AllDebits, StepsMirror, StepsOn, NoFail, Emits, Bares, Debtors, Creditors,
      AdvanceAll, Fetch;
    var c := TxContext(tree, Success, tx, i);
    var fetched := Fetch(txs, c.Targets()).value;
    var ins, outs := InSteps(accountOf, c, fetched), OutSteps(accountOf, c);
    var ops := TxEmission(accountOf, txs, c).ops;
    AdvanceAllParts(ins, outs);
    InStepsOwned(accountOf, txs, c);
    OutStepsOwned(accountOf, c);
    StepsMirrored(accountOf, c, fetched);
    EmitsOnly(ins, true);
    EmitsOnly(outs, false);
    SplitBares(ops, Emits(ins), Emits(outs));
    debits, credits := ops[..|Emits(ins)|], ops[|Emits(ins)|..];
    BaresSides(debits, true);
    BaresSides(credits, false);
    OnePerOwnerBares(debits, Debtors(accountOf, txs, c));
    OnePerOwnerBares(credits, Creditors(accountOf, c));
  }

  /* ----- Operations speak about real outputs ----- */

  /** Every transaction in list is the one the transaction index holds under its hash. */
  ghost predicate Known(txs: map<Hash, Tx>, list: seq<Tx>) {
    forall tx | tx in list :: tx.hash in txs && txs[tx.hash] == tx && |tx.outs| <= TWO_32
  }

  /** The amount and outputs an op carries are those of the output it spends or creates. */
  ghost predicate RealOp(txs: map<Hash, Tx>, op: Op) {
    match op.side
    case Credit(output) =>
      && Known(txs, [op.ctx.tx])
      && op.ioIndex < |op.ctx.tx.outs|
      && output == op.ctx.tx.outs[op.ioIndex]
      && op.amount == (if op.IsReversed() then -output.value else output.value)
    case Debit(input, prevOutput) =>
      && op.ioIndex < |op.ctx.tx.ins|
      && input == op.ctx.tx.ins[op.ioIndex]
      && (prevOutput.None? ==> op.account == TREASURY && !op.IsReversed() && op.amount == -input.valueIn)
      && (prevOutput.Some? ==>
            && Lookup(txs, input.prevOut) == prevOutput
            && op.amount == if op.IsReversed() then prevOutput.value.amount else -prevOutput.value.amount)
  }

  ghost predicate RealOps(txs: map<Hash, Tx>, ops: seq<Op>) {
    forall i | 0 <= i < |ops| :: RealOp(txs, ops[i])
  }

  lemma {:induction false} AdvanceAllReal(txs: map<Hash, Tx>, e: Emission, steps: seq<Step>)
    requires RealOps(txs, e.ops)
    requires forall i | 0 <= i < |steps| && steps[i].Emit? :: RealOp(txs, steps[i].op)
    ensures RealOps(txs, AdvanceAll(e, steps).ops)
  {
    if steps != [] {
      var front, s := steps[..|steps| - 1], steps[|steps| - 1];
      AdvanceAllReal(txs, e, front);
      if s.Emit? {
        var n := |AdvanceAll(e, front).ops|;
        assert RealOp(txs, s.op.(opIndex := n));
      }
    }
  }

  lemma TxOpsReal(accountOf: AccountOf, txs: map<Hash, Tx>, c: TxContext)
    requires Known(txs, [c.tx])
    requires c.status.Reversed? ==> c.tree == TREE_REGULAR
    ensures RealOps(txs, TxEmission(accountOf, txs, c).ops)
  {
    hide RealOp, InSteps, OutSteps, Known;
    var fetched := Fetch(txs, c.Targets());
    if fetched.Some? {
      InStepsReal(accountOf, txs, c);
      OutStepsReal(accountOf, txs, c);
      AdvanceAllReal(txs, NOTHING, TxSteps(accountOf, c, fetched.value));
    }
  }

  lemma InStepsReal(accountOf: AccountOf, txs: map<Hash, Tx>, c: TxContext)
    requires Fetch(txs, c.Targets()).Some? && (c.status.Reversed? ==> c.tree == TREE_REGULAR)
    ensures var steps := InSteps(accountOf, c, Fetch(txs, c.Targets()).value);
            forall i | 0 <= i < |steps| && steps[i].Emit? :: RealOp(txs, steps[i].op)
  {
  }

  lemma OutStepsReal(accountOf: AccountOf, txs: map<Hash, Tx>, c: TxContext)
    requires Known(txs, [c.tx])
    ensures var steps := OutSteps(accountOf, c);
            forall i | 0 <= i < |steps| && steps[i].Emit? :: RealOp(txs, steps[i].op)
  {
    hide Known;
  }

  lemma {:induction false} TxsOpsReal(accountOf: AccountOf, txs: map<Hash, Tx>, tree: Int8, status: OpStatus,
      list: seq<Tx>)
    requires Known(txs, list)
    requires status.Reversed? ==> tree == TREE_REGULAR
    ensures RealOps(txs, TxsEmission(accountOf, txs, tree, status, list).ops)
  {
    if list != [] {
      var n := |list| - 1;
      TxsOpsReal(accountOf, txs, tree, status, list[..n]);
      assert list[n] in list;
      TxOpsReal(accountOf, txs, TxContext(tree, status, list[n], n));
    }
  }

  lemma BlockOpsReal(accountOf: AccountOf, txs: map<Hash, Tx>, b: Block, prev: Option<Block>)
    requires Known(txs, b.txs) && Known(txs, b.stxs)
    requires prev.Some? ==> Known(txs, prev.value.txs)
    ensures RealOps(txs, BlockEmission(accountOf, txs, b, prev).ops)
  {
    var undone := if prev.Some? then TxsEmission(accountOf, txs, TREE_REGULAR, Reversed, prev.value.txs) else NOTHING;
    if prev.Some? {
      TxsOpsReal(accountOf, txs, TREE_REGULAR, Reversed, prev.value.txs);
    }
    var regular := TxsEmission(accountOf, txs, TREE_REGULAR, Success, b.txs);
    var stake := TxsEmission(accountOf, txs, TREE_STAKE, Success, b.stxs);
    TxsOpsReal(accountOf, txs, TREE_REGULAR, Success, b.txs);
    TxsOpsReal(accountOf, txs, TREE_STAKE, Success, b.stxs);
    ThenReal(txs, undone, regular);
    ThenReal(txs, NOTHING, regular);
    ThenReal(txs, Then(undone, regular), stake);
    ThenReal(txs, Then(NOTHING, regular), stake);
  }

  lemma ThenReal(txs: map<Hash, Tx>, a: Emission, b: Emission)
    requires RealOps(txs, a.ops) && RealOps(txs, b.ops)
    ensures RealOps(txs, Then(a, b).ops)
  {
  }
}
