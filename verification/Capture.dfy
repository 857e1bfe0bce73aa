/**
  Bounded output capture: a stream is drained in chunks of any size, but only a
  fixed head and a sliding tail are kept.
*/
module Capture {
  import opened Basics

  function FirstN<T>(s: seq<T>, n: nat): seq<T> {
    s[..Min(n, |s|)]
  }

  function LastN<T>(s: seq<T>, n: nat): seq<T> {
    s[|s| - Min(n, |s|)..]
  }

  /** The part of the stream that did not fit the head. */
  function AfterHead<T>(s: seq<T>, headLimit: nat): seq<T> {
    s[Min(headLimit, |s|)..]
  }

  /** A sliding window needs only itself, never the bytes it already dropped. */
  lemma LastNOfAppend<T>(s: seq<T>, more: seq<T>, n: nat)
    ensures LastN(s + more, n) == LastN(LastN(s, n) + more, n)
    ensures |more| >= n ==> LastN(s + more, n) == LastN(more, n)
  {
    var all, window := s + more, LastN(s, n) + more;
    assert |all| - Min(n, |all|) >= 0;
    assert all[|s| - Min(n, |s|)..] == window;
    if |more| >= n {
      assert all[|s|..] == more;
    }
  }

  /** Filling the head first and sending only the overflow on loses nothing. */
  lemma HeadOfAppend<T>(s: seq<T>, chunk: seq<T>, limit: nat)
    ensures var missing := limit - |FirstN(s, limit)|;
            && FirstN(s + chunk, limit) == FirstN(s, limit) + FirstN(chunk, missing)
            && AfterHead(s + chunk, limit) == AfterHead(s, limit) + AfterHead(chunk, missing)
  {
  }

  /** The three ways the tail is updated all keep it the last bytes of the overflow. */
  lemma TailOfAppend<T>(s: seq<T>, chunk: seq<T>, headLimit: nat, tailLimit: nat)
    ensures var data := AfterHead(chunk, headLimit - |FirstN(s, headLimit)|);
            var tail := LastN(AfterHead(s, headLimit), tailLimit);
            LastN(AfterHead(s + chunk, headLimit), tailLimit)
            == if data == [] || tailLimit == 0 then tail
               else if |data| >= tailLimit then LastN(data, tailLimit)
               else LastN(tail + data, tailLimit)
  {
    var data := AfterHead(chunk, headLimit - |FirstN(s, headLimit)|);
    var rest := AfterHead(s, headLimit);
    HeadOfAppend(s, chunk, headLimit);
    LastNOfAppend(rest, data, tailLimit);
    if data == [] {
      assert rest + data == rest;
    }
  }

  class BoundedCapture<T(==)> {
    const headLimit: nat
    const tailLimit: nat
    var head: seq<T>
    var tail: seq<T>
    var totalBytes: nat
    ghost var stream: seq<T>

    ghost predicate Valid()
      reads this
    {
      && head == FirstN(stream, headLimit)
      && tail == LastN(AfterHead(stream, headLimit), tailLimit)
      && totalBytes == |stream|
    }

    constructor (limit: nat)
      ensures Valid() && stream == []
      ensures headLimit == limit / 2 && headLimit + tailLimit == limit
    {
      headLimit := limit / 2;
      tailLimit := limit - limit / 2;
      head, tail, totalBytes, stream := [], [], 0, [];
    }

    /** Appending a chunk has the same effect as extending the stream by it. */
    method Append(chunk: seq<T>)
      requires Valid()
      modifies this
      ensures Valid() && stream == old(stream) + chunk
    {
      HeadOfAppend(stream, chunk, headLimit);
      TailOfAppend(stream, chunk, headLimit, tailLimit);
      stream := stream + chunk;
      totalBytes := totalBytes + |chunk|;
      var data := chunk;
      var missing := headLimit - |head|;
      if missing > 0 {
        head := head + FirstN(data, missing);
        data := AfterHead(data, missing);
      }
      if data == [] || tailLimit == 0 { return; }
      if |data| >= tailLimit {
        tail := LastN(data, tailLimit);
        return;
      }
      tail := LastN(tail + data, tailLimit);
    }

    /** What a snapshot reports about the stream. */
    method Snapshot() returns (kept: seq<T>, retained: nat, truncated: bool)
      requires Valid()
      ensures kept == FirstN(stream, headLimit) + LastN(AfterHead(stream, headLimit), tailLimit)
      ensures retained == Min(headLimit + tailLimit, |stream|)
      ensures truncated <==> headLimit + tailLimit < |stream|
      ensures !truncated <==> kept == stream
    {
      kept := head + tail;
      retained := |kept|;
      truncated := retained < totalBytes;
    }
  }

  function Concat<T>(chunks: seq<seq<T>>): seq<T> {
    if chunks == [] then [] else chunks[0] + Concat(chunks[1..])
  }

  lemma ConcatFrom<T>(prefix: seq<T>, chunks: seq<seq<T>>, i: nat)
    requires i < |chunks|
    ensures prefix + Concat(chunks[i..]) == (prefix + chunks[i]) + Concat(chunks[i + 1..])
  {
    assert chunks[i..][1..] == chunks[i + 1..];
  }

  /** The reader thread: however the stream was cut, the capture depends on the stream alone. */
  method Drain<T(==)>(limit: nat, chunks: seq<seq<T>>) returns (kept: seq<T>, retained: nat, truncated: bool)
    ensures var s := Concat(chunks);
            && kept == FirstN(s, limit / 2) + LastN(AfterHead(s, limit / 2), limit - limit / 2)
            && retained == |kept| == Min(limit, |s|)
            && (truncated <==> limit < |s|)
            && (!truncated <==> kept == s)
  {
    var capture := new BoundedCapture(limit);
    var i := 0;
    while i < |chunks|
      invariant 0 <= i <= |chunks|
      invariant capture.Valid() && fresh(capture)
      invariant capture.headLimit == limit / 2 && capture.tailLimit == limit - limit / 2
      invariant capture.stream + Concat(chunks[i..]) == Concat(chunks)
    {
      ConcatFrom(capture.stream, chunks, i);
      capture.Append(chunks[i]);
      i := i + 1;
    }
    assert capture.stream == Concat(chunks);
    kept, retained, truncated := capture.Snapshot();
  }
}
