/** `ListBasedTokenProvider`: a cursor over a fixed token list. */
module TokenCursor {
  import opened Wrappers
  import opened Tokens

  /** The list and the position; the list is never modified. */
  datatype Cursor = Cursor(tokens: seq<Token>, position: nat)

  /** A new provider: the position starts at 0. */
  function NewCursor(tokens: seq<Token>): (c: Cursor)
    ensures c.tokens == tokens && c.position == 0
    ensures |tokens| > 0 ==> Current(c) == Some(tokens[0])
  {
    Cursor(tokens, 0)
  }

  /** `getCurrent`: the token at the position, `None` (null) past the end. */
  function Current(c: Cursor): (r: Option<Token>)
    ensures r.None? <==> c.position >= |c.tokens|
    ensures r.Some? ==> r.value == c.tokens[c.position]
  {
    if c.position >= |c.tokens| then None else Some(c.tokens[c.position])
  }

  /** `advance`: unconditionally one step further, also past the end. */
  function Advance(c: Cursor): (c': Cursor)
    ensures c'.tokens == c.tokens && c'.position == c.position + 1
  {
    c.(position := c.position + 1)
  }

  /** `n` consecutive advances. */
  function AdvanceBy(c: Cursor, n: nat): Cursor
    decreases n
  {
    if n == 0 then c else AdvanceBy(Advance(c), n - 1)
  }

  /** An exhausted cursor stays exhausted however often it is advanced, and
      its list never changes. */
  lemma {:induction false} ExhaustedStaysExhausted(c: Cursor, n: nat)
    requires Current(c).None?
    ensures Current(AdvanceBy(c, n)).None?
    ensures AdvanceBy(c, n).tokens == c.tokens
    ensures AdvanceBy(c, n).position == c.position + n
    decreases n
  {
    if n > 0 {
      ExhaustedStaysExhausted(Advance(c), n - 1);
    }
  }

  /** The tokens consumed between two positions of the same list: the
      part of the list a cursor moved over, clipped at the end. */
  function Consumed(tokens: seq<Token>, from: nat, to: nat): seq<Token>
    requires from <= to
  {
    var lo := if from < |tokens| then from else |tokens|;
    var hi := if to < |tokens| then to else |tokens|;
    tokens[lo..hi]
  }

  /** Consumed stretches add up. */
  lemma ConsumedSplit(tokens: seq<Token>, a: nat, b: nat, c: nat)
    requires a <= b <= c
    ensures Consumed(tokens, a, b) + Consumed(tokens, b, c) == Consumed(tokens, a, c)
  {
  }
}
