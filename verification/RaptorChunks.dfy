/** What goes into and comes out of a RAPTOR run, for both tree builders. */
module RaptorChunks {

  datatype Chunk = Chunk(text: string, embedded: bool)

  datatype Outcome = Raised | DidNotReduce | Returned(chunks: seq<string>, layers: seq<(nat, nat)>)

  /** The chunks that take part: those with text and a non-empty embedding. */
  function Usable(chunks: seq<Chunk>): (r: seq<string>)
    ensures forall i :: 0 <= i < |r| ==> r[i] != ""
  {
    if chunks == [] then []
    else (if chunks[0].text != "" && chunks[0].embedded then [chunks[0].text] else []) + Usable(chunks[1..])
  }

  predicate TakesPart(c: Chunk)
  {
    c.text != "" && c.embedded
  }

  /** How many of the first `i` chunks take part. */
  ghost function PartBefore(chunks: seq<Chunk>, i: nat): nat
    requires i <= |chunks|
  {
    if i == 0 then 0 else PartBefore(chunks, i - 1) + (if TakesPart(chunks[i - 1]) then 1 else 0)
  }

  lemma {:induction false} PartShift(chunks: seq<Chunk>, i: nat)
    requires 0 < i <= |chunks|
    ensures PartBefore(chunks, i) == PartBefore(chunks[1..], i - 1) + (if TakesPart(chunks[0]) then 1 else 0)
    decreases i
  {
    if i > 1 {
      PartShift(chunks, i - 1);
    }
  }

  /** Exactly the chunks with text and embedding take part, in order. */
  lemma {:induction false} UsableAre(chunks: seq<Chunk>)
    ensures |Usable(chunks)| == PartBefore(chunks, |chunks|)
    ensures forall i :: 0 <= i < |chunks| && TakesPart(chunks[i]) ==>
              PartBefore(chunks, i) < |Usable(chunks)| && Usable(chunks)[PartBefore(chunks, i)] == chunks[i].text
    decreases |chunks|
  {
    if chunks != [] {
      var rest := Usable(chunks[1..]);
      UsableAre(chunks[1..]);
      PartShift(chunks, |chunks|);
      forall i | 0 < i < |chunks| && TakesPart(chunks[i])
        ensures PartBefore(chunks, i) == PartBefore(chunks[1..], i - 1) + (if TakesPart(chunks[0]) then 1 else 0)
        ensures rest[PartBefore(chunks[1..], i - 1)] == chunks[i].text
      {
        PartShift(chunks, i);
        assert TakesPart(chunks[1..][i - 1]);
      }
    }
  }

  /** How many of the first `i` items have the label `c`. */
  ghost function CountBefore(labels: seq<nat>, c: nat, i: nat): nat
    requires i <= |labels|
  {
    if i == 0 then 0 else CountBefore(labels, c, i - 1) + (if labels[i - 1] == c then 1 else 0)
  }

  lemma {:induction false} CountShift(labels: seq<nat>, c: nat, i: nat)
    requires 0 < i <= |labels|
    ensures CountBefore(labels, c, i) == CountBefore(labels[1..], c, i - 1) + (if labels[0] == c then 1 else 0)
    decreases i
  {
    if i > 1 {
      CountShift(labels, c, i - 1);
    }
  }

  /** Boundaries that start with the given chunks and follow each other without gap or overlap. */
  ghost predicate Contiguous(layers: seq<(nat, nat)>, n: nat, end: nat)
  {
    && |layers| > 0 && layers[0] == (0, n) && layers[|layers| - 1].1 == end
    && (forall i :: 0 <= i < |layers| ==> layers[i].0 <= layers[i].1)
    && (forall i :: 1 <= i < |layers| ==> layers[i].0 == layers[i - 1].1)
    && (forall i :: 1 <= i < |layers| ==> layers[i].0 < layers[i].1)
  }

  lemma ContiguousStart(n: nat)
    ensures Contiguous([(0, n)], n, n)
  {
  }

  lemma ContiguousMore(layers: seq<(nat, nat)>, n: nat, end: nat, next: nat)
    requires Contiguous(layers, n, end) && end < next
    ensures Contiguous(layers + [(end, next)], n, next)
  {
  }
}
