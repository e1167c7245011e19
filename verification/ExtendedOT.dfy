/** The extended oblivious transfer: a monochrome check over GF(2) polynomials, then hashed rows. */
module ExtendedOT {
  import opened Party
  import opened Bits
  import opened Gf2
  import opened CorrelatedOT

  type FieldElement = w: Words | |w| == FIELD_LEN witness ZeroWords(FIELD_LEN)

  /** The i-th check weight, sampled from the hash after U has been written to it. */
  const ChiOf: (Context, nat) -> FieldElement

  /** The hash of a row and its counter. */
  const RowHash: (nat, Block) -> Block

  datatype Message = Message(u: seq<Bytes>, x: Words, t: seq<Words>)

  /** adjustBatchSize: rounded up to whole blocks, with two blocks of slack. */
  function AdjustBatchSize(desired: nat): (padded: nat)
    ensures desired + 2 * OT_PARAM <= padded < desired + 3 * OT_PARAM
  {
    var r := desired % OT_PARAM;
    (if r != 0 then desired + (OT_PARAM - r) else desired) + 2 * OT_PARAM
  }

  lemma DivideExactly(k: nat)
    ensures (OT_PARAM * k) / OT_PARAM == k && (8 * k) / 8 == k
  {
  }

  lemma Blocks(desired: nat) returns (k: nat)
    ensures AdjustBatchSize(desired) == OT_PARAM * k
  {
    k := desired / OT_PARAM + if desired % OT_PARAM != 0 then 3 else 2;
  }

  lemma WholeBlocks(desired: nat)
    ensures var padded := AdjustBatchSize(desired);
            padded == OT_PARAM * (padded / OT_PARAM) && padded == 8 * (padded / 8)
  {
    hide AdjustBatchSize;
    var k := Blocks(desired);
    DivideExactly(k);
    DivideExactly(16 * k);
    assert OT_PARAM * k == 8 * (16 * k);
  }

  // -------------------------------------------------------------------- plucking

  /** The field element whose highest coefficient is the first bit. */
  ghost function Pack(bits: seq<bool>): (f: Words)
    requires |bits| == OT_PARAM
    ensures |f| == FIELD_LEN && forall n :: At(f, n) == (0 <= n < OT_PARAM && bits[OT_PARAM - 1 - n])
  {
    seq(FIELD_LEN, w requires 0 <= w < FIELD_LEN =>
      seq(WORD, b requires 0 <= b < WORD => bits[OT_PARAM - 1 - (WORD * w + b)]))
  }

  lemma SameCoefficients(f: Words, g: Words)
    requires |f| == |g| && forall n :: At(f, n) == At(g, n)
    ensures f == g
  {
    forall k | 0 <= k < |f| ensures f[k] == g[k] {
      forall b | 0 <= b < WORD ensures f[k][b] == g[k][b] {
        AtWord(f, k, b);
        AtWord(g, k, b);
      }
    }
  }

  /** out.shl1(); out[0] |= bit */
  method ShiftIn(f: Words, bit: bool) returns (r: Words)
    requires |f| == FIELD_LEN
    ensures |r| == FIELD_LEN
    ensures forall n :: At(r, n) == (0 <= n < OT_PARAM && if n == 0 then bit else At(f, n - 1))
  {
    var shifted := ShiftLeft(f);
    r := shifted[0 := Or(shifted[0], seq(WORD, i => i == 0 && bit))];
    assert !At(f, -1);
    forall n ensures At(r, n) == (0 <= n < OT_PARAM && if n == 0 then bit else At(f, n - 1)) {
      if 0 <= n < OT_PARAM {
        assert At(shifted, n) == At(f, n - 1);
        assert n / WORD != 0 ==> r[n / WORD] == shifted[n / WORD];
      }
    }
  }

  /** The loop shared by both plucking functions. */
  method PluckAll(bits: seq<bool>) returns (out: Words)
    requires |bits| == OT_PARAM
    ensures out == Pack(bits)
  {
    out := ZeroWords(FIELD_LEN);
    for j := 0 to OT_PARAM
      invariant |out| == FIELD_LEN
      invariant forall n :: At(out, n) == (0 <= n < j && bits[j - 1 - n])
    {
      out := ShiftIn(out, bits[j]);
    }
    SameCoefficients(out, Pack(bits));
  }

  function ColumnBits(rows: seq<Block>, i: nat, c: nat): (bits: seq<bool>)
    requires OT_PARAM * (i + 1) <= |rows| && c < OT_PARAM
    ensures |bits| == OT_PARAM
  {
    seq(OT_PARAM, k requires 0 <= k < OT_PARAM => BitAt(c, rows[OT_PARAM * i + k]))
  }

  function ChoiceBits(choices: Bytes, i: nat): (bits: seq<bool>)
    requires OT_PARAM * (i + 1) <= 8 * |choices|
    ensures |bits| == OT_PARAM
  {
    seq(OT_PARAM, k requires 0 <= k < OT_PARAM => BitAt(OT_PARAM * i + k, choices))
  }

  /** Column c of the rows, one field element for every block of rows. */
  ghost function Hat(rows: seq<Block>, c: nat): (es: seq<Words>)
    requires c < OT_PARAM
    ensures |es| == |rows| / OT_PARAM && forall i :: 0 <= i < |es| ==> |es[i]| == FIELD_LEN
  {
    seq(|rows| / OT_PARAM, i requires 0 <= i < |rows| / OT_PARAM => Pack(ColumnBits(rows, i, c)))
  }

  ghost function ChoiceHat(choices: Bytes): (es: seq<Words>)
    ensures |es| == 8 * |choices| / OT_PARAM && forall i :: 0 <= i < |es| ==> |es[i]| == FIELD_LEN
  {
    seq(8 * |choices| / OT_PARAM, i requires 0 <= i < 8 * |choices| / OT_PARAM => Pack(ChoiceBits(choices, i)))
  }

  function Chi(context: Context, len: nat): (chi: seq<Words>)
    ensures |chi| == len && forall i :: 0 <= i < len ==> chi[i] == ChiOf(context, i) && |chi[i]| == FIELD_LEN
  {
    seq(len, i requires 0 <= i < len => ChiOf(context, i))
  }

  /** sum over the blocks of column c times chi. */
  method WeightedColumn(rows: seq<Block>, c: nat, chi: seq<Words>) returns (q: Words)
    requires c < OT_PARAM && |chi| == |rows| / OT_PARAM && forall i :: 0 <= i < |chi| ==> |chi[i]| == FIELD_LEN
    ensures |q| == DOUBLE_LEN && forall n :: At(q, n) == Weighted(Hat(rows, c), chi, n, |chi|)
  {
    hide Pack, Product, At;
    q := ZeroWords(DOUBLE_LEN);
    for i := 0 to |chi|
      invariant |q| == DOUBLE_LEN
      invariant forall n :: At(q, n) == Weighted(Hat(rows, c), chi, n, i)
    {
      var e := PluckAll(ColumnBits(rows, i, c));
      q := Accumulate(q, e, chi[i]);
    }
  }

  method WeightedChoices(choices: Bytes, chi: seq<Words>) returns (x: Words)
    requires |chi| == 8 * |choices| / OT_PARAM && forall i :: 0 <= i < |chi| ==> |chi[i]| == FIELD_LEN
    ensures |x| == DOUBLE_LEN && forall n :: At(x, n) == Weighted(ChoiceHat(choices), chi, n, |chi|)
  {
    hide Pack, Product, At;
    x := ZeroWords(DOUBLE_LEN);
    for i := 0 to |chi|
      invariant |x| == DOUBLE_LEN
      invariant forall n :: At(x, n) == Weighted(ChoiceHat(choices), chi, n, i)
    {
      var e := PluckAll(ChoiceBits(choices, i));
      x := Accumulate(x, e, chi[i]);
    }
  }

  // --------------------------------------------------------------------- parties

  /** The equation the sender checks for column j. */
  ghost predicate Monochrome(q: seq<Block>, chi: seq<Words>, delta: Block, x: Words, t: seq<Words>, j: nat)
    requires j < OT_PARAM && |chi| == |q| / OT_PARAM && |t| == OT_PARAM
  {
    forall n :: Weighted(Hat(q, j), chi, n, |chi|) == (At(t[j], n) != (BitAt(j, delta) && At(x, n)))
  }

  predicate Shaped(msg: Message) {
    |msg.u| == |msg.t| == OT_PARAM && |msg.x| == DOUBLE_LEN &&
    forall j :: 0 <= j < OT_PARAM ==> |msg.t[j]| == DOUBLE_LEN
  }

  /** What the sender accepts: sizes match and every column passes the check. */
  ghost predicate Accepted(context: Context, setup: SendSetup, batchSize: nat, msg: Message)
    requires |setup.kDelta| == OT_PARAM && Shaped(msg)
  {
    var padded := AdjustBatchSize(batchSize);
    && Sized(msg.u, padded / 8)
    && var q := QRows(context, setup, padded / 8, msg.u);
       var chi := Chi(context + msg.u, |q| / OT_PARAM);
       forall j :: 0 <= j < OT_PARAM ==> Monochrome(q, chi, setup.delta, msg.x, msg.t, j)
  }

  /**
    What acceptance means: at every column and coefficient the sum of the sender's rows, with weights sampled after U
    was written to the hash, is that of the receiver, plus x where delta has a bit.
   */
  lemma AcceptedEquation(context: Context, setup: SendSetup, batchSize: nat, msg: Message, j: nat, n: int)
    requires |setup.kDelta| == OT_PARAM && Shaped(msg) && j < OT_PARAM && Accepted(context, setup, batchSize, msg)
    ensures Sized(msg.u, AdjustBatchSize(batchSize) / 8)
    ensures var q := QRows(context, setup, AdjustBatchSize(batchSize) / 8, msg.u);
            var chi := seq(|q| / OT_PARAM, i requires 0 <= i < |q| / OT_PARAM => ChiOf(context + msg.u, i));
            Weighted(Hat(q, j), chi, n, |chi|) == (At(msg.t[j], n) != (BitAt(j, setup.delta) && At(msg.x, n)))
  {
    hide At, Weighted, Hat, QRows, BitAt;
    var q := QRows(context, setup, AdjustBatchSize(batchSize) / 8, msg.u);
    var chi: seq<Words> := seq(|q| / OT_PARAM, i requires 0 <= i < |q| / OT_PARAM => ChiOf(context + msg.u, i));
    assert chi == Chi(context + msg.u, |q| / OT_PARAM);
    assert Monochrome(q, chi, setup.delta, msg.x, msg.t, j);
  }

  /** Given U and x there is one t only that the sender accepts: a change of any coefficient of any column is refused. */
  lemma ColumnsBound(context: Context, setup: SendSetup, batchSize: nat, msg: Message, t: seq<Words>, j: nat, n: int)
    requires |setup.kDelta| == OT_PARAM && Shaped(msg) && Shaped(msg.(t := t)) && j < OT_PARAM
    requires Accepted(context, setup, batchSize, msg) && Accepted(context, setup, batchSize, msg.(t := t))
    ensures At(msg.t[j], n) == At(t[j], n)
  {
    hide At, Weighted, Hat, QRows, BitAt;
    var q := QRows(context, setup, AdjustBatchSize(batchSize) / 8, msg.u);
    var chi := Chi(context + msg.u, |q| / OT_PARAM);
    assert Monochrome(q, chi, setup.delta, msg.x, msg.t, j) && Monochrome(q, chi, setup.delta, msg.x, t, j);
  }

  /** Given U and t there is one x only, unless delta has no bit set. */
  lemma ChoicesBound(context: Context, setup: SendSetup, batchSize: nat, msg: Message, x: Words, j: nat, n: int)
    requires |setup.kDelta| == OT_PARAM && Shaped(msg) && Shaped(msg.(x := x)) && j < OT_PARAM
    requires Accepted(context, setup, batchSize, msg) && Accepted(context, setup, batchSize, msg.(x := x))
    requires BitAt(j, setup.delta)
    ensures At(msg.x, n) == At(x, n)
  {
    hide At, Weighted, Hat, QRows, BitAt;
    var q := QRows(context, setup, AdjustBatchSize(batchSize) / 8, msg.u);
    var chi := Chi(context + msg.u, |q| / OT_PARAM);
    assert Monochrome(q, chi, setup.delta, msg.x, msg.t, j) && Monochrome(q, chi, setup.delta, x, msg.t, j);
  }

  /**
    Two sets of rows that differ in one block of one column cannot both pass the check for the same x and t, unless
    the weight of that block is zero: there are no zero divisors among the unreduced products.
   */
  lemma CorruptionSeen(q: seq<Block>, q': seq<Block>, chi: seq<Words>, delta: Block, x: Words, t: seq<Words>,
                       j: nat, i: nat)
    requires j < OT_PARAM && |q| == |q'| && |chi| == |q| / OT_PARAM && |t| == OT_PARAM && i < |chi|
    requires (exists n :: At(chi[i], n)) && Hat(q, j)[i] != Hat(q', j)[i]
    requires forall k :: 0 <= k < |chi| && k != i ==> Hat(q, j)[k] == Hat(q', j)[k]
    ensures !(Monochrome(q, chi, delta, x, t, j) && Monochrome(q', chi, delta, x, t, j))
  {
    hide Hat, BitAt;
    var a, c := Hat(q, j), Hat(q', j);
    if forall n :: At(a[i], n) == At(c[i], n) {
      SameCoefficients(a[i], c[i]);
    }
    WeightedSeparates(a, c, chi, i);
    var n :| Weighted(a, chi, n, |a|) != Weighted(c, chi, n, |a|);
    assert Weighted(a, chi, n, |chi|) != Weighted(c, chi, n, |chi|);
  }

  /** The sender's two outputs at index i: its row hashed as it is, and with delta added. */
  ghost function Sent(context: Context, setup: SendSetup, batchSize: nat, u: seq<Bytes>, i: nat): (Block, Block)
    requires |setup.kDelta| == OT_PARAM && Sized(u, AdjustBatchSize(batchSize) / 8) && i < batchSize
  {
    var row := QRows(context, setup, AdjustBatchSize(batchSize) / 8, u)[i];
    (RowHash(i, row), RowHash(i, XorBytes(row, setup.delta)))
  }

  /** The receiver's output at index i. */
  ghost function Received(context: Context, setup: ReceiveSetup, bytes: nat, i: nat): Block
    requires |setup.k0| == OT_PARAM && i < 8 * bytes
  {
    RowHash(i, TRows(context, setup, bytes)[i])
  }

  /** The check loop of the sender. */
  method CheckColumns(q: seq<Block>, chi: seq<Words>, delta: Block, x: Words, t: seq<Words>) returns (good: bool)
    requires |chi| == |q| / OT_PARAM && forall i :: 0 <= i < |chi| ==> |chi[i]| == FIELD_LEN
    requires |x| == DOUBLE_LEN && |t| == OT_PARAM && forall j :: 0 <= j < OT_PARAM ==> |t[j]| == DOUBLE_LEN
    ensures good <==> forall j :: 0 <= j < OT_PARAM ==> Monochrome(q, chi, delta, x, t, j)
  {
    hide At, Weighted, Hat, BitAt;
    good := true;
    for j := 0 to OT_PARAM
      invariant good <==> forall k :: 0 <= k < j ==> Monochrome(q, chi, delta, x, t, k)
    {
      var sum := WeightedColumn(q, j, chi);
      var expected := ConditionalAdd(t[j], BitAt(j, delta), x);
      var same := Eq(sum, expected);
      assert same <==> Monochrome(q, chi, delta, x, t, j);
      good := good && same;
    }
  }

  /** ExtendedOTSend. The hash state is returned with U written to it. */
  method Send(context: Context, setup: SendSetup, batchSize: nat, msg: Message)
    returns (r: Result<(seq<Block>, seq<Block>)>, after: Context)
    requires |setup.kDelta| == OT_PARAM && Shaped(msg)
    ensures r.Ok? <==> Accepted(context, setup, batchSize, msg)
    ensures r.Ok? ==> after == context + msg.u && |r.value.0| == |r.value.1| == batchSize
    ensures r.Ok? ==> forall i :: 0 <= i < batchSize ==>
        (r.value.0[i], r.value.1[i]) == Sent(context, setup, batchSize, msg.u, i)
    ensures r.Ok? ==> forall i :: 0 <= i < batchSize ==>
        var row := QRows(context, setup, AdjustBatchSize(batchSize) / 8, msg.u)[i];
        r.value.0[i] == RowHash(i, row) && r.value.1[i] == RowHash(i, XorBytes(row, setup.delta))
  {
    hide QRows, Monochrome, XorBytes;
    var padded := AdjustBatchSize(batchSize);
    WholeBlocks(batchSize);
    hide AdjustBatchSize;
    var corre := CorrelatedOT.Send(context, setup, padded, msg.u);
    after := context;
    if corre.Err? {
      return Err(corre.error), after;
    }
    after := context + msg.u;
    var chi := Chi(after, padded / OT_PARAM);
    var good := CheckColumns(corre.value, chi, setup.delta, msg.x, msg.t);
    if !good {
      return Err("ExtendedOTSend: monochrome check failed"), after;
    }
    var v0, v1 := HashRows(corre.value, setup.delta, batchSize);
    r := Ok((v0, v1));
  }

  /** The output loop of the sender, which adds delta to each row in place between the two hashes. */
  method HashRows(q: seq<Block>, delta: Block, batchSize: nat) returns (v0: seq<Block>, v1: seq<Block>)
    requires batchSize <= |q|
    ensures |v0| == |v1| == batchSize
    ensures forall i :: 0 <= i < batchSize ==> v0[i] == RowHash(i, q[i]) && v1[i] == RowHash(i, XorBytes(q[i], delta))
  {
    hide XorBytes, MaskBytes;
    var rows: seq<Block> := q;
    v0, v1 := [], [];
    for i := 0 to batchSize
      invariant |rows| == |q| && |v0| == |v1| == i
      invariant forall k :: i <= k < |q| ==> rows[k] == q[k]
      invariant forall k :: 0 <= k < i ==> v0[k] == RowHash(k, q[k]) && v1[k] == RowHash(k, XorBytes(q[k], delta))
    {
      v0 := v0 + [RowHash(i, rows[i])];
      var row: Block := XorMasked(rows[i], true, delta);
      rows := rows[i := row];
      v1 := v1 + [RowHash(i, rows[i])];
    }
  }

  /** ExtendedOTReceive, with the random bytes that pad the choices. */
  method Receive(context: Context, setup: ReceiveSetup, choices: Bytes, extra: Bytes)
    returns (msg: Message, v: seq<Block>, after: Context)
    requires |setup.k0| == |setup.k1| == OT_PARAM
    requires 8 * (|choices| + |extra|) == AdjustBatchSize(8 * |choices|)
    ensures after == context + msg.u && Shaped(msg)
    ensures Honest(context, setup, choices + extra, msg)
    ensures |v| == 8 * |choices|
    ensures forall i :: 0 <= i < |v| ==> v[i] == Received(context, setup, |choices| + |extra|, i)
    ensures forall i :: 0 <= i < |v| ==> v[i] == RowHash(i, TRows(context, setup, |choices| + |extra|)[i])
  {
    hide UColumns, TRows, At, Weighted, Hat, ChoiceHat;
    var all := choices + extra;
    var u, rows := CorrelatedOT.Receive(context, setup, all);
    after := context + u;
    var chi := Chi(after, |rows| / OT_PARAM);
    var x := WeightedChoices(all, chi);
    var t: seq<Words> := [];
    for j := 0 to OT_PARAM
      invariant |t| == j && forall k :: 0 <= k < j ==> |t[k]| == DOUBLE_LEN
      invariant forall k, n :: 0 <= k < j ==> At(t[k], n) == Weighted(Hat(rows, k), chi, n, |chi|)
    {
      var sum := WeightedColumn(rows, j, chi);
      t := t + [sum];
    }
    msg := Message(u, x, t);
    v := seq(8 * |choices|, i requires 0 <= i < 8 * |choices| => RowHash(i, rows[i]));
  }

  /** The receiver's message: U for its choices, and the weighted sums of choices and rows. */
  ghost predicate Honest(context: Context, setup: ReceiveSetup, all: Bytes, msg: Message)
    requires |setup.k0| == |setup.k1| == OT_PARAM && Shaped(msg)
  {
    && msg.u == UColumns(context, setup, all)
    && var rows := TRows(context, setup, |all|);
       var chi := Chi(context + msg.u, |rows| / OT_PARAM);
       && (forall n :: At(msg.x, n) == Weighted(ChoiceHat(all), chi, n, |chi|))
       && (forall j, n :: 0 <= j < OT_PARAM ==> At(msg.t[j], n) == Weighted(Hat(rows, j), chi, n, |chi|))
  }

  // ------------------------------------------------------------------- one run

  /** Related rows give related field elements in every column. */
  lemma HatRelated(q: seq<Block>, t: seq<Block>, choices: Bytes, delta: Block, j: nat, i: nat, n: int)
    requires |q| == |t| == 8 * |choices| && j < OT_PARAM && i < |q| / OT_PARAM
    requires forall k :: 0 <= k < |q| ==> Related(q[k], t[k], BitAt(k, choices), delta)
    ensures At(Hat(q, j)[i], n) == (At(Hat(t, j)[i], n) != (BitAt(j, delta) && At(ChoiceHat(choices)[i], n)))
  {
    hide At, BitAt;
    if 0 <= n < OT_PARAM {
      var k := OT_PARAM * i + (OT_PARAM - 1 - n);
      assert Related(q[k], t[k], BitAt(k, choices), delta);
      assert BitAt(j, q[k]) == (BitAt(j, t[k]) != (BitAt(k, choices) && BitAt(j, delta)));
      assert ColumnBits(q, i, j)[OT_PARAM - 1 - n] == BitAt(j, q[k]);
      assert ColumnBits(t, i, j)[OT_PARAM - 1 - n] == BitAt(j, t[k]);
      assert ChoiceBits(choices, i)[OT_PARAM - 1 - n] == BitAt(k, choices);
    }
  }

  /** The monochrome check accepts every honest message, whatever the weights. */
  lemma CheckPasses(context: Context, s: SendSetup, r: ReceiveSetup, all: Bytes, batchSize: nat, msg: Message)
    requires Correlated(s, r) && Shaped(msg) && Honest(context, r, all, msg)
    requires 8 * |all| == AdjustBatchSize(batchSize)
    ensures Accepted(context, s, batchSize, msg)
  {
    hide At, BitAt, Weighted, QRows, TRows, UColumns, Hat, ChoiceHat;
    var q := QRows(context, s, |all|, msg.u);
    var t := TRows(context, r, |all|);
    var chi := Chi(context + msg.u, |q| / OT_PARAM);
    forall k | 0 <= k < |q| ensures Related(q[k], t[k], BitAt(k, all), s.delta) {
      RowsRelated(context, s, r, all, k);
    }
    forall j | 0 <= j < OT_PARAM ensures Monochrome(q, chi, s.delta, msg.x, msg.t, j) {
      forall n
        ensures Weighted(Hat(q, j), chi, n, |chi|) == (At(msg.t[j], n) != (BitAt(j, s.delta) && At(msg.x, n)))
      {
        forall i, k | 0 <= i < |chi|
          ensures At(Hat(q, j)[i], k) == (At(Hat(t, j)[i], k) != (BitAt(j, s.delta) && At(ChoiceHat(all)[i], k)))
        {
          HatRelated(q, t, all, s.delta, j, i, k);
        }
        WeightedLinear(Hat(q, j), Hat(t, j), ChoiceHat(all), BitAt(j, s.delta), chi, n, |chi|);
      }
    }
  }

  /** The row behind the receiver's choice is the row it holds. */
  lemma ChosenRow(q: Block, t: Block, choice: bool, delta: Block)
    requires Related(q, t, choice, delta)
    ensures t == if choice then XorBytes(q, delta) else q
  {
    SameBits(t, if choice then XorBytes(q, delta) else q);
  }

  /** After an honest message the receiver holds V_choice at every index. */
  lemma PadsMatch(context: Context, s: SendSetup, r: ReceiveSetup, choices: Bytes, extra: Bytes, msg: Message, i: nat)
    requires Correlated(s, r) && i < 8 * |choices| && 8 * (|choices| + |extra|) == AdjustBatchSize(8 * |choices|)
    requires Shaped(msg) && Honest(context, r, choices + extra, msg)
    ensures Sized(msg.u, |choices| + |extra|)
    ensures var sent := Sent(context, s, 8 * |choices|, msg.u, i);
            Received(context, r, |choices| + |extra|, i) == if BitAt(i, choices) then sent.1 else sent.0
  {
    var all := choices + extra;
    RowsRelated(context, s, r, all, i);
    assert BitAt(i, all) == BitAt(i, choices);
    ChosenRow(QRows(context, s, |all|, msg.u)[i], TRows(context, r, |all|)[i], BitAt(i, choices), s.delta);
  }

  /** A whole honest run: the sender accepts, and the receiver holds V_choice at every index. */
  method Run(context: Context, s: SendSetup, r: ReceiveSetup, choices: Bytes, extra: Bytes)
    returns (sent: Result<(seq<Block>, seq<Block>)>, received: seq<Block>, sAfter: Context, rAfter: Context)
    requires Correlated(s, r) && 8 * (|choices| + |extra|) == AdjustBatchSize(8 * |choices|)
    ensures sent.Ok? && sAfter == rAfter
    ensures |sent.value.0| == |sent.value.1| == |received| == 8 * |choices|
    ensures forall i :: 0 <= i < |received| ==>
        received[i] == if BitAt(i, choices) then sent.value.1[i] else sent.value.0[i]
  {
    hide BitAt, Sent, Received, Accepted, Honest, Shaped;
    var msg, v, after := Receive(context, r, choices, extra);
    CheckPasses(context, s, r, choices + extra, 8 * |choices|, msg);
    sent, sAfter := Send(context, s, 8 * |choices|, msg);
    received, rAfter := v, after;
    forall i | 0 <= i < |received|
      ensures received[i] == if BitAt(i, choices) then sent.value.1[i] else sent.value.0[i]
    {
      PadsMatch(context, s, r, choices, extra, msg, i);
    }
  }
}
