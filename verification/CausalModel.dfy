/** An arbitrary causal model: the K/V row of a position and the logits after it depend only on the rows
    before it and on its token. Nothing else is assumed about the numbers. */
module CausalModel {
  import opened PageKeys

  /** The key and value rows of one position, one vector per layer. */
  datatype Payload = Payload(key: seq<seq<real>>, value: seq<seq<real>>)

  datatype Model = Model(encode: (seq<Payload>, Token) -> Payload, logits: (seq<Payload>, Token) -> seq<real>)

  /** The rows of a whole history, computed from scratch. */
  function History(m: Model, h: seq<Token>): (r: seq<Payload>)
    ensures |r| == |h|
  {
    if h == [] then []
    else
      var before := History(m, h[..|h| - 1]);
      before + [m.encode(before, h[|h| - 1])]
  }

  /** The row of the last position of `h`. */
  function Row(m: Model, h: seq<Token>): Payload
    requires h != []
  {
    m.encode(History(m, h[..|h| - 1]), h[|h| - 1])
  }

  function Logits(m: Model, h: seq<Token>): seq<real>
    requires h != []
  {
    m.logits(History(m, h[..|h| - 1]), h[|h| - 1])
  }

  lemma {:induction false} HistoryRow(m: Model, h: seq<Token>, i: nat)
    requires i < |h|
    ensures History(m, h)[i] == Row(m, h[..i + 1])
    decreases |h|
  {
    var n := |h| - 1;
    if i < n {
      HistoryRow(m, h[..n], i);
      assert h[..n][..i + 1] == h[..i + 1];
    } else {
      assert h[..i + 1] == h;
    }
  }

  lemma {:induction false} HistoryFront(m: Model, h: seq<Token>, i: nat)
    requires i <= |h|
    ensures History(m, h)[..i] == History(m, h[..i])
    decreases |h|
  {
    if i < |h| {
      var n := |h| - 1;
      HistoryFront(m, h[..n], i);
      assert h[..n][..i] == h[..i];
      assert History(m, h)[..i] == History(m, h[..n])[..i];
    } else {
      assert h[..i] == h;
    }
  }

  /** Row by row: each position is encoded from exactly the rows before it, in order, and its own token; the logits come
      from the rows before the last position and its token. */
  lemma HistoryMeans(m: Model, h: seq<Token>)
    ensures forall i :: 0 <= i < |h| ==> History(m, h)[i] == m.encode(History(m, h)[..i], h[i])
    ensures h != [] ==> Row(m, h) == History(m, h)[|h| - 1] && Logits(m, h) == m.logits(History(m, h)[..|h| - 1], h[|h| - 1])
  {
    forall i | 0 <= i < |h| ensures History(m, h)[i] == m.encode(History(m, h)[..i], h[i]) {
      HistoryRow(m, h, i);
      HistoryFront(m, h, i);
      assert h[..i + 1][..i] == h[..i];
    }
    if h != [] {
      HistoryFront(m, h, |h| - 1);
      HistoryRow(m, h, |h| - 1);
      assert h[..|h|] == h;
    }
  }
}
