/** The collector of findings: repeats dropped, the list cut by count and by bytes, never cut to nothing. */
module Collector {
  import opened Workflow

  const MAX_ERRORS := 200
  const MAX_ERROR_BYTES := 200_000

  /** The stream without repeats, each finding at its first place. */
  function Dedup(stream: seq<Error>): seq<Error> {
    if stream == [] then []
    else
      var last := stream[|stream| - 1];
      var before := Dedup(stream[..|stream| - 1]);
      if last in before then before else before + [last]
  }

  /** The same findings, no repeats. */
  lemma {:induction false} DedupIsSound(stream: seq<Error>)
    ensures forall e :: e in Dedup(stream) <==> e in stream
    ensures forall i, j | 0 <= i < j < |Dedup(stream)| :: Dedup(stream)[i] != Dedup(stream)[j]
  {
    if stream != [] {
      var init, last := stream[..|stream| - 1], stream[|stream| - 1];
      assert stream == init + [last];
      DedupIsSound(init);
    }
  }

  function Bytes(size: Error -> nat, errors: seq<Error>): nat {
    if errors == [] then 0 else Bytes(size, errors[..|errors| - 1]) + size(errors[|errors| - 1])
  }

  /**
   * What the collector owes its callers: a beginning of the stream without repeats, within both
   * limits (one finding is kept whatever its size), and as long as the limits allow.
   */
  predicate Collected(size: Error -> nat, stream: seq<Error>, kept: seq<Error>) {
    var all := Dedup(stream);
    && kept <= all
    && |kept| <= MAX_ERRORS
    && (|kept| > 1 ==> Bytes(size, kept) <= MAX_ERROR_BYTES)
    && (stream != [] ==> kept != [])
    && (|kept| < |all| ==> |kept| == MAX_ERRORS || Bytes(size, all[..|kept| + 1]) > MAX_ERROR_BYTES)
  }

  /** The loop of `validate_workflow` over the findings as they come. */
  method Collect(size: Error -> nat, stream: seq<Error>) returns (kept: seq<Error>)
    ensures Collected(size, stream, kept)
    ensures kept == Kept(size, stream)
  {
    hide Collected, Kept;
    kept := [];
    var bytes := 0;
    for i := 0 to |stream|
      invariant kept == Dedup(stream[..i])
      invariant |kept| < MAX_ERRORS && bytes == Bytes(size, kept)
      invariant |kept| > 1 ==> bytes <= MAX_ERROR_BYTES
      invariant i > 0 ==> kept != []
    {
      var e := stream[i];
      assert stream[..i + 1][..i] == stream[..i];
      if e in kept {
        continue;
      }
      bytes := bytes + size(e);
      BytesSnoc(size, kept, e);
      if kept != [] && bytes > MAX_ERROR_BYTES {
        CutByBytes(size, stream, i, kept, e);
        KeptIsUnique(size, stream, kept, Kept(size, stream));
        return;
      }
      kept := kept + [e];
      if |kept| == MAX_ERRORS {
        CutByCount(size, stream, i + 1, kept);
        KeptIsUnique(size, stream, kept, Kept(size, stream));
        return;
      }
    }
    assert stream[..|stream|] == stream;
    NotCut(size, stream, kept);
    KeptIsUnique(size, stream, kept, Kept(size, stream));
  }

  lemma DedupNotEmpty(stream: seq<Error>)
    ensures stream != [] ==> Dedup(stream) != []
  {
    if stream != [] {
      DedupIsSound(stream);
      assert stream[0] in Dedup(stream);
    }
  }

  lemma BytesSnoc(size: Error -> nat, kept: seq<Error>, e: Error)
    ensures Bytes(size, kept + [e]) == Bytes(size, kept) + size(e)
  {
    assert (kept + [e])[..|kept|] == kept;
  }

  lemma PrefixParts<T>(kept: seq<T>, e: T, all: seq<T>)
    requires kept + [e] <= all
    ensures kept <= all && all[..|kept| + 1] == kept + [e] && |kept| < |all|
  {
    assert all[..|kept| + 1] == kept + [e];
    assert all[..|kept|] == (kept + [e])[..|kept|];
  }

  lemma DedupSnoc(stream: seq<Error>, i: nat)
    requires i < |stream| && stream[i] !in Dedup(stream[..i])
    ensures Dedup(stream[..i + 1]) == Dedup(stream[..i]) + [stream[i]]
  {
    assert stream[..i + 1][..i] == stream[..i];
  }

  lemma CutByBytes(size: Error -> nat, stream: seq<Error>, i: nat, kept: seq<Error>, e: Error)
    requires i < |stream| && e == stream[i] && kept == Dedup(stream[..i]) && e !in kept && 0 < |kept| < MAX_ERRORS
    requires (|kept| > 1 ==> Bytes(size, kept) <= MAX_ERROR_BYTES) && Bytes(size, kept + [e]) > MAX_ERROR_BYTES
    ensures Collected(size, stream, kept)
  {
    hide Bytes, Dedup;
    DedupSnoc(stream, i);
    DedupPrefix(stream, i + 1);
    PrefixParts(kept, e, Dedup(stream));
  }

  lemma CutByCount(size: Error -> nat, stream: seq<Error>, i: nat, kept: seq<Error>)
    requires i <= |stream| && kept == Dedup(stream[..i]) && |kept| == MAX_ERRORS && Bytes(size, kept) <= MAX_ERROR_BYTES
    ensures Collected(size, stream, kept)
  {
    hide Bytes;
    DedupPrefix(stream, i);
  }

  lemma NotCut(size: Error -> nat, stream: seq<Error>, kept: seq<Error>)
    requires kept == Dedup(stream) && |kept| < MAX_ERRORS && (|kept| > 1 ==> Bytes(size, kept) <= MAX_ERROR_BYTES)
    ensures Collected(size, stream, kept)
  {
    DedupNotEmpty(stream);
  }

  lemma {:induction false} DedupPrefix(stream: seq<Error>, i: nat)
    requires i <= |stream|
    ensures Dedup(stream[..i]) <= Dedup(stream)
    decreases |stream| - i
  {
    if i == |stream| {
      assert stream[..i] == stream;
    } else {
      assert stream[..i + 1][..i] == stream[..i];
      DedupPrefix(stream, i + 1);
    }
  }

  // ----- the contract has one solution

  /** How many of the findings fit. */
  function Fitting(size: Error -> nat, all: seq<Error>, n: nat): (k: nat)
    requires n <= |all| && (n <= 1 || Bytes(size, all[..n]) <= MAX_ERROR_BYTES) && n <= MAX_ERRORS
    ensures n <= k <= |all| && k <= MAX_ERRORS
    ensures k > 1 ==> Bytes(size, all[..k]) <= MAX_ERROR_BYTES
    ensures all != [] ==> k > 0
    ensures k < |all| ==> k == MAX_ERRORS || Bytes(size, all[..k + 1]) > MAX_ERROR_BYTES
    decreases |all| - n
  {
    if n == |all| || n == MAX_ERRORS || (n > 0 && Bytes(size, all[..n + 1]) > MAX_ERROR_BYTES) then n
    else Fitting(size, all, n + 1)
  }

  function Kept(size: Error -> nat, stream: seq<Error>): (kept: seq<Error>)
    ensures Collected(size, stream, kept)
  {
    var all := Dedup(stream);
    DedupNotEmpty(stream);
    all[..Fitting(size, all, 0)]
  }

  lemma BytesGrow(size: Error -> nat, all: seq<Error>, m: nat, n: nat)
    requires m <= n <= |all|
    ensures Bytes(size, all[..m]) <= Bytes(size, all[..n])
    decreases n - m
  {
    if m < n {
      assert all[..n][..n - 1] == all[..n - 1];
      BytesGrow(size, all, m, n - 1);
    }
  }

  lemma KeptIsUnique(size: Error -> nat, stream: seq<Error>, a: seq<Error>, b: seq<Error>)
    requires Collected(size, stream, a) && Collected(size, stream, b)
    ensures a == b
  {
    var all := Dedup(stream);
    if |a| < |b| {
      assert all[..|b|] == b;
      BytesGrow(size, all, |a| + 1, |b|);
    } else if |b| < |a| {
      assert all[..|a|] == a;
      BytesGrow(size, all, |b| + 1, |a|);
    }
    assert a == all[..|a|] && b == all[..|b|];
  }
}
