/** From logit rows to losses: _row, _token_nll and aggregate. */
module Scoring {
  import opened Wrappers
  import opened Decoding
  import opened DecodingProperties

  /** The negative log-likelihood of a token under a logit row, the library's own summation of such
      losses, and the exponential. */
  datatype Loss = Loss(nll: (seq<real>, int) -> real, sum: seq<real> -> real, exp: real -> real)

  datatype LossRow = LossRow(lossSum: real, tokens: nat, ppl: real, tokenNll: seq<real>)

  datatype Total = Total(loss: real, ppl: real, tokens: nat, windows: nat)

  function Sum(x: seq<real>): real {
    if x == [] then 0.0 else x[0] + Sum(x[1..])
  }

  function TokenNll(loss: Loss, rows: seq<seq<real>>, tokens: seq<int>): (x: seq<real>)
    requires |rows| == |tokens|
    ensures |x| == |tokens|
  {
    seq(|tokens|, i requires 0 <= i < |tokens| => loss.nll(rows[i], tokens[i]))
  }

  /** exp of a mean loss, cut off at 50. */
  function Perplexity(loss: Loss, sum: real, tokens: nat): real
    requires tokens > 0
  {
    var mean := sum / tokens as real;
    loss.exp(if mean < 50.0 then mean else 50.0)
  }

  function RowOf(loss: Loss, rows: seq<seq<real>>, tokens: seq<int>): (r: LossRow)
    requires |rows| == |tokens| > 0
  {
    var nll := TokenNll(loss, rows, tokens);
    LossRow(loss.sum(nll), |tokens|, Perplexity(loss, loss.sum(nll), |tokens|), nll)
  }

  function LossSum(rows: seq<LossRow>): real {
    if rows == [] then 0.0 else rows[0].lossSum + LossSum(rows[1..])
  }

  function TokenSum(rows: seq<LossRow>): nat {
    if rows == [] then 0 else rows[0].tokens + TokenSum(rows[1..])
  }

  /** Fails without tokens, where the source divides by zero. */
  function Aggregate(loss: Loss, rows: seq<LossRow>): Option<Total> {
    var sum, tokens := LossSum(rows), TokenSum(rows);
    if tokens == 0 then None else Some(Total(sum / tokens as real, Perplexity(loss, sum, tokens), tokens, |rows|))
  }

  /** All token losses, window after window. */
  function AllNll(rows: seq<LossRow>): seq<real> {
    if rows == [] then [] else rows[0].tokenNll + AllNll(rows[1..])
  }

  /** A row whose loss sum is exact. */
  predicate Consistent(r: LossRow) {
    r.tokens == |r.tokenNll| > 0 && r.lossSum == Sum(r.tokenNll)
  }

  lemma {:induction false} SumConcat(x: seq<real>, y: seq<real>)
    ensures Sum(x + y) == Sum(x) + Sum(y)
  {
    if x == [] {
      assert x + y == y;
    } else {
      SumConcat(x[1..], y);
      assert (x + y)[1..] == x[1..] + y;
    }
  }

  /** Windows add up: with exact loss sums the aggregate is the mean loss over all tokens of all windows,
      however they are cut. */
  lemma {:induction false} AggregateIsMean(loss: Loss, rows: seq<LossRow>)
    requires forall i | 0 <= i < |rows| :: Consistent(rows[i])
    ensures LossSum(rows) == Sum(AllNll(rows)) && TokenSum(rows) == |AllNll(rows)|
    ensures var t := Aggregate(loss, rows);
            && (t.None? <==> rows == [])
            && (t.Some? ==> t.value.tokens == |AllNll(rows)| > 0 && t.value.windows == |rows|
                            && t.value.loss == Sum(AllNll(rows)) / |AllNll(rows)| as real)
  {
    if rows != [] {
      AggregateIsMean(loss, rows[1..]);
      SumConcat(rows[0].tokenNll, AllNll(rows[1..]));
      assert Consistent(rows[0]);
    }
  }

  /** The row that scoring returns. */
  function Scored<S>(m: Model<S>, loss: Loss, view: View, context: seq<int>, continuation: seq<int>): (r: LossRow)
    requires |continuation| > 0 && |m.prefill(context).0| == m.layers
    ensures r.tokens == |r.tokenNll| == |continuation|
  {
    RowOf(loss, Scores(m, view, context, continuation), continuation)
  }

  /** The loss of token i depends on the context and the tokens up to i only. */
  lemma LossesAreCausal<S>(m: Model<S>, loss: Loss, view: View, context: seq<int>, c: seq<int>, d: seq<int>, i: nat)
    requires |m.prefill(context).0| == m.layers && i < |c| && i < |d| && c[..i + 1] == d[..i + 1]
    ensures Scored(m, loss, view, context, c).tokenNll[..i + 1] == Scored(m, loss, view, context, d).tokenNll[..i + 1]
  {
    hide Scores;
    assert c[..i] == c[..i + 1][..i] && d[..i] == d[..i + 1][..i];
    ScoresAreCausal(m, view, context, c, d, i);
    var x, y := Scores(m, view, context, c), Scores(m, view, context, d);
    forall j | 0 <= j <= i ensures x[j] == y[j] && c[j] == d[j] {
      assert x[j] == x[..i + 1][j] && y[j] == y[..i + 1][j];
      assert c[j] == c[..i + 1][j] && d[j] == d[..i + 1][j];
    }
  }

  /** Each token is scored under its own row: the first under the prefill row, token i under the row that forcing the
      first i tokens produces. */
  lemma LossesAre<S>(m: Model<S>, loss: Loss, view: View, context: seq<int>, c: seq<int>, i: nat)
    requires |m.prefill(context).0| == m.layers && i < |c|
    ensures Scored(m, loss, view, context, c).tokenNll[i] ==
              if i == 0 then loss.nll(m.prefill(context).1, c[0])
              else loss.nll(Forced(m, view, m.prefill(context).0, c[..i]).1[i - 1], c[i])
  {
    hide Forced, Scores;
    ScoresMean(m, view, context, c, i);
  }

  lemma {:induction false} SumOfEqual(x: seq<real>, a: real)
    requires forall i | 0 <= i < |x| :: x[i] == a
    ensures Sum(x) == |x| as real * a
  {
    if x != [] { SumOfEqual(x[1..], a); }
  }

  /** With exact sums, tokens that all have loss a have perplexity exp(a), cut off at exp(50). */
  lemma EqualLosses(loss: Loss, rows: seq<seq<real>>, tokens: seq<int>, a: real)
    requires |rows| == |tokens| > 0 && forall i | 0 <= i < |tokens| :: loss.nll(rows[i], tokens[i]) == a
    requires forall x :: loss.sum(x) == Sum(x)
    ensures var r := RowOf(loss, rows, tokens);
            && r.lossSum == |tokens| as real * a && r.tokens == |tokens|
            && r.ppl == loss.exp(if a < 50.0 then a else 50.0)
  {
    var nll := TokenNll(loss, rows, tokens);
    SumOfEqual(nll, a);
    var n := |tokens| as real;
    assert loss.sum(nll) == n * a;
    QuotientOfMultiple(n, a);
    assert loss.sum(nll) / n == a;
  }

  lemma QuotientOfMultiple(n: real, a: real)
    requires n > 0.0
    ensures n * a / n == a
  {
  }

  lemma {:induction false} TotalsConcat(x: seq<LossRow>, y: seq<LossRow>)
    ensures LossSum(x + y) == LossSum(x) + LossSum(y) && TokenSum(x + y) == TokenSum(x) + TokenSum(y)
  {
    if x == [] {
      assert x + y == y;
    } else {
      TotalsConcat(x[1..], y);
      assert (x + y)[1..] == x[1..] + y;
    }
  }

  /** Cutting a window in two changes neither the mean loss nor the perplexity nor the token count. */
  lemma CutWindow(loss: Loss, before: seq<LossRow>, whole: LossRow, left: LossRow, right: LossRow, rest: seq<LossRow>)
    requires Consistent(whole) && Consistent(left) && Consistent(right)
    requires whole.tokenNll == left.tokenNll + right.tokenNll
    ensures var t, u := Aggregate(loss, before + [whole] + rest), Aggregate(loss, before + [left, right] + rest);
            && t.Some? && u.Some? && u.value.windows == t.value.windows + 1
            && t.value.loss == u.value.loss && t.value.ppl == u.value.ppl && t.value.tokens == u.value.tokens
  {
    TotalsConcat(before + [whole], rest);
    TotalsConcat(before, [whole]);
    TotalsConcat(before + [left, right], rest);
    TotalsConcat(before, [left, right]);
    SumConcat(left.tokenNll, right.tokenNll);
    assert [whole][1..] == [] && [left, right][1..] == [right] && [right][1..] == [];
  }

  /** The perplexity of an aggregate is the exponential of its mean loss, cut off at 50. */
  lemma AggregatePerplexity(loss: Loss, rows: seq<LossRow>)
    requires Aggregate(loss, rows).Some?
    ensures var t := Aggregate(loss, rows).value; t.ppl == loss.exp(if t.loss < 50.0 then t.loss else 50.0)
  {
  }

  /** The perplexity of a window is the exponential of its loss sum per token, cut off at 50. */
  lemma RowPerplexity(loss: Loss, rows: seq<seq<real>>, tokens: seq<int>)
    requires |rows| == |tokens| > 0
    ensures var r := RowOf(loss, rows, tokens);
            var mean := r.lossSum / |tokens| as real;
            r.tokens == |tokens| && r.ppl == loss.exp(if mean < 50.0 then mean else 50.0)
  {
  }
}
