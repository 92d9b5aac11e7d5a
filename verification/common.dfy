/** Shared vocabulary of the three scripts: optional values and results, the
    YouTube API error and its quota test, order-preserving filtering, and the
    split of an id list into request batches of at most 50. */
module Common {

  datatype Option<T> = None | Some(value: T) {
    function GetOr(default: T): T {
      match this
      case Some(v) => v
      case None => default
    }
  }

  datatype Result<T, E> = Ok(value: T) | Err(error: E)

  function Min(a: int, b: int): int { if a <= b then a else b }

  function Max(a: int, b: int): int { if a >= b then a else b }

  /** `t in s` on Python strings: `t` occurs as a contiguous substring of `s`. */
  predicate Contains(s: string, t: string)
    decreases |s|
  {
    (|t| <= |s| && s[..|t|] == t) || (s != [] && Contains(s[1..], t))
  }

  /** An exception out of a YouTube Data API `execute()`: an `HttpError` of
      the Google API client, with the HTTP status of the response and the text
      `str(e)` renders, or any other exception (a timeout, a reset
      connection), which no `except HttpError` clause catches. */
  datatype ApiError = HttpError(status: int, message: string) | OtherError

  /** The scripts' test for an exhausted API quota:
      `e.resp.status == 403 and 'quotaExceeded' in str(e)`. */
  predicate IsQuotaExceeded(e: ApiError) {
    e.HttpError? && e.status == 403 && Contains(e.message, "quotaExceeded")
  }

  /** The error leaves a helper whose `except HttpError` clause re-raises
      only quota errors: a quota error, or an exception that is not an
      `HttpError` at all. */
  predicate Propagates(e: ApiError) {
    IsQuotaExceeded(e) || e.OtherError?
  }

  /** A list comprehension `[x for x in s if p(x)]`. */
  function Filter<T>(s: seq<T>, p: T -> bool): (r: seq<T>)
    ensures |r| <= |s|
    ensures forall i :: 0 <= i < |r| ==> p(r[i])
    decreases |s|
  {
    if s == [] then [] else (if p(s[0]) then [s[0]] else []) + Filter(s[1..], p)
  }

  /** An element survives the filter exactly when it is in the input and
      satisfies the predicate. */
  lemma {:induction false} FilterMembership<T>(s: seq<T>, p: T -> bool, x: T)
    ensures x in Filter(s, p) <==> x in s && p(x)
    decreases |s|
  {
    if s != [] {
      FilterMembership(s[1..], p, x);
      assert s == [s[0]] + s[1..];
    }
  }

  lemma AppendAssoc<T>(a: seq<T>, b: seq<T>, c: seq<T>)
    ensures (a + b) + c == a + (b + c)
  {
  }

  /** Filtering commutes with concatenation, so the survivors keep the order
      they had in the input. */
  lemma {:induction false} FilterConcat<T>(a: seq<T>, b: seq<T>, p: T -> bool)
    ensures Filter(a + b, p) == Filter(a, p) + Filter(b, p)
    decreases |a|
  {
    if a == [] {
      assert a + b == b;
    } else {
      assert (a + b)[1..] == a[1..] + b;
      FilterConcat(a[1..], b, p);
    }
  }

  /** Filtering a prefix one element longer: the head's verdict, then the
      rest of the prefix. */
  lemma FilterPrefixCons<T>(s: seq<T>, j: nat, p: T -> bool)
    requires j < |s|
    ensures Filter(s[..j + 1], p) == (if p(s[0]) then [s[0]] else []) + Filter(s[1..][..j], p)
  {
    assert s[..j + 1][1..] == s[1..][..j];
  }

  /** Largest number of ids sent in one `list` request. */
  const BatchSize: nat := 50

  /** The batches `s[i:i+50]` for `i` in `range(0, len(s), 50)`. */
  function Batches<T>(s: seq<T>): seq<seq<T>>
    decreases |s|
  {
    if s == [] then []
    else
      var n := Min(BatchSize, |s|);
      [s[..n]] + Batches(s[n..])
  }

  /** `s[i:]`, empty once `i` runs past the end. */
  function Suffix<T>(s: seq<T>, i: nat): seq<T> {
    if i < |s| then s[i..] else []
  }

  /** The batch loop's index view: the batches from `i` on are the slice
      `s[i:i+50]` followed by the batches from `i + 50` on. */
  lemma BatchAt<T>(s: seq<T>, i: nat)
    requires i < |s|
    ensures Batches(Suffix(s, i)) == [s[i..Min(i + BatchSize, |s|)]] + Batches(Suffix(s, i + BatchSize))
  {
    var rest := s[i..];
    assert rest[..Min(BatchSize, |rest|)] == s[i..Min(i + BatchSize, |s|)];
    assert rest[Min(BatchSize, |rest|)..] == Suffix(s, i + BatchSize);
  }

  function Flatten<T>(ss: seq<seq<T>>): seq<T>
    decreases |ss|
  {
    if ss == [] then [] else ss[0] + Flatten(ss[1..])
  }

  /** The batches are consecutive non-empty slices of at most 50 ids, all but
      the last of exactly 50, whose concatenation is the input. */
  lemma {:induction false} BatchesPartition<T>(s: seq<T>)
    ensures Flatten(Batches(s)) == s
    ensures forall k :: 0 <= k < |Batches(s)| ==> 0 < |Batches(s)[k]| <= BatchSize
    ensures forall k :: 0 <= k < |Batches(s)| - 1 ==> |Batches(s)[k]| == BatchSize
    decreases |s|
  {
    if s != [] {
      var n := Min(BatchSize, |s|);
      BatchesPartition(s[n..]);
      assert s[..n] + s[n..] == s;
      var bs := Batches(s);
      assert bs[1..] == Batches(s[n..]);
      forall k | 0 < k < |bs|
        ensures 0 < |bs[k]| <= BatchSize
      {
        assert bs[k] == Batches(s[n..])[k - 1];
      }
      if |s| > BatchSize {
        assert s[n..] != [];
      }
    }
  }
}
