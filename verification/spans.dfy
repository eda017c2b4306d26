/** Rows of adjoining spans, as a layout accumulates them: where each span starts, and
    that the spans cut their whole length up exactly. */
module Spans {

  /** Where span i starts; for i == |es|, where the last one ends. */
  function Start(es: seq<nat>, i: nat): nat
    requires i <= |es|
  {
    if i == 0 then 0 else Start(es, i - 1) + es[i - 1]
  }

  function Length(es: seq<nat>): nat { Start(es, |es|) }

  ghost predicate Positive(es: seq<nat>) { forall i | 0 <= i < |es| :: es[i] > 0 }

  lemma {:induction false} StartGrows(es: seq<nat>, i: nat, j: nat)
    requires i <= j <= |es|
    ensures Start(es, i) <= Start(es, j)
    ensures i < j ==> Start(es, i) + es[i] <= Start(es, j)
    decreases j
  {
    if i < j {
      StartGrows(es, i, j - 1);
      if i < j - 1 { StartGrows(es, i, j - 1); }
    }
  }

  lemma {:induction false} StartOfPart(es: seq<nat>, n: nat, i: nat)
    requires i <= n <= |es|
    ensures Start(es[..n], i) == Start(es, i)
  {
    if i > 0 { StartOfPart(es, n, i - 1); }
  }

  /** The point x is in span i. */
  predicate In(es: seq<nat>, i: nat, x: real)
    requires i < |es|
  {
    Start(es, i) as real <= x < Start(es, i + 1) as real
  }

  lemma {:induction false} Locate(es: seq<nat>, n: nat, x: real) returns (i: nat)
    requires n <= |es| && 0.0 <= x < Start(es, n) as real
    ensures i < n && In(es, i, x)
    decreases n
  {
    if x < Start(es, n - 1) as real {
      i := Locate(es, n - 1, x);
    } else {
      i := n - 1;
    }
  }

  lemma InOneOnly(es: seq<nat>, i: nat, j: nat, x: real)
    requires i < |es| && j < |es| && In(es, i, x) && In(es, j, x)
    ensures i == j
  {
    if i < j { StartGrows(es, i + 1, j); }
    if j < i { StartGrows(es, j + 1, i); }
  }

  /** Spans partition their length: each point of it is in exactly one span. */
  lemma SpansPartition(es: seq<nat>, x: real)
    requires 0.0 <= x < Length(es) as real
    ensures exists i | 0 <= i < |es| :: In(es, i, x)
    ensures forall i, j | 0 <= i < |es| && 0 <= j < |es| && In(es, i, x) && In(es, j, x) :: i == j
  {
    var i := Locate(es, |es|, x);
    forall j, k | 0 <= j < |es| && 0 <= k < |es| && In(es, j, x) && In(es, k, x)
      ensures j == k
    {
      InOneOnly(es, j, k, x);
    }
  }

  lemma MulLe(i: nat, n: nat, g: nat)
    requires i <= n
    ensures i * g <= n * g
  {
  }

  /** The length of spans i * g up to (i + 1) * g. */
  function GroupLength(es: seq<nat>, g: nat, n: nat, i: nat): nat
    requires |es| == n * g && i < n
  {
    MulLe(i, n, g);
    MulLe(i + 1, n, g);
    StartGrows(es, i * g, (i + 1) * g);
    Start(es, (i + 1) * g) - Start(es, i * g)
  }

  /** n spans, each made of g of the given ones. */
  function Grouped(es: seq<nat>, g: nat, n: nat): seq<nat>
    requires |es| == n * g
  {
    seq(n, i requires 0 <= i < n => GroupLength(es, g, n, i))
  }

  /** A group starts where its first span does. */
  lemma {:induction false} GroupStart(es: seq<nat>, g: nat, n: nat, i: nat)
    requires |es| == n * g && i <= n
    ensures i * g <= |es| && Start(Grouped(es, g, n), i) == Start(es, i * g)
    decreases i
  {
    MulLe(i, n, g);
    if i > 0 { GroupStart(es, g, n, i - 1); }
  }

  /** A point is in a group exactly when it is between the start of its first span and
      the end of its last. */
  lemma GroupIn(es: seq<nat>, g: nat, n: nat, i: nat, x: real)
    requires |es| == n * g && i < n
    ensures i * g + g == (i + 1) * g <= |es|
    ensures In(Grouped(es, g, n), i, x) <==> Start(es, i * g) as real <= x < Start(es, (i + 1) * g) as real
  {
    MulLe(i + 1, n, g);
    GroupStart(es, g, n, i);
    GroupStart(es, g, n, i + 1);
  }

  /** A span lies inside a stretch of spans it belongs to. */
  lemma SpanInside(es: seq<nat>, x: nat, w: nat, c: nat)
    requires x + w <= |es| && c < w
    ensures Start(es, x) <= Start(es, x + c) <= Start(es, x + c + 1) <= Start(es, x + w)
  {
    StartGrows(es, x, x + c);
    StartGrows(es, x + c, x + c + 1);
    StartGrows(es, x + c + 1, x + w);
  }
}
