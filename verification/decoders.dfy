/** The override map merged from the decoders (readDecoders, populate.go:89-104). */
module Decoders {
  import opened Common

  /** What one call of Decoder.Decode handed back: a key/value overlay or an error. */
  datatype DecodeResult = Decoded(env: map<string, string>) | DecodeFailed(message: string)

  /** Decoder `i` delivered an overlay that contains `k`. */
  predicate Supplies(ds: seq<DecodeResult>, i: int, k: string) {
    0 <= i < |ds| && ds[i].Decoded? && k in ds[i].env
  }

  /** Among the first `n` decoders, `i` is the last one that supplies `k`. */
  predicate LastSupplier(ds: seq<DecodeResult>, n: int, i: int, k: string) {
    i < n && Supplies(ds, i, k) && forall j :: i < j < n ==> !Supplies(ds, j, k)
  }

  /** Decoder `i` is the first that failed. */
  predicate FirstFailure(ds: seq<DecodeResult>, i: int) {
    0 <= i < |ds| && ds[i].DecodeFailed? && forall j :: 0 <= j < i ==> ds[j].Decoded?
  }

  /** `m` is the last-write-wins merge of the first `n` decoders' overlays. */
  ghost predicate MergeOf(ds: seq<DecodeResult>, n: int, m: map<string, string>) {
    && (forall k :: k in m <==> exists i :: i < n && Supplies(ds, i, k))
    && (forall k, i :: LastSupplier(ds, n, i, k) ==> k in m && m[k] == ds[i].env[k])
  }

  /** No decoders give the empty map; a failing decoder aborts with the first
      failure; otherwise each key maps to the value of the last decoder supplying it. */
  function ReadDecoders(ds: seq<DecodeResult>): (r: Result<map<string, string>>)
    ensures |ds| == 0 ==> r == Ok(map[])
    ensures r.Err? <==> exists i :: 0 <= i < |ds| && ds[i].DecodeFailed?
    ensures r.Err? ==> exists i :: FirstFailure(ds, i) && r.error == DecoderFailed(ds[i].message)
    ensures r.Ok? ==> MergeOf(ds, |ds|, r.value)
  {
    Merge(ds, 0, map[])
  }

  /** The loop of populate.go:94-102 from decoder `i` on, with the merge so far. */
  function Merge(ds: seq<DecodeResult>, i: nat, acc: map<string, string>): (r: Result<map<string, string>>)
    requires i <= |ds|
    requires forall j :: 0 <= j < i ==> ds[j].Decoded?
    requires MergeOf(ds, i, acc)
    ensures r.Err? <==> exists j :: 0 <= j < |ds| && ds[j].DecodeFailed?
    ensures r.Err? ==> exists j :: FirstFailure(ds, j) && r.error == DecoderFailed(ds[j].message)
    ensures r.Ok? ==> MergeOf(ds, |ds|, r.value)
    decreases |ds| - i
  {
    if i == |ds| then Ok(acc)
    else
      match ds[i]
      case DecodeFailed(msg) =>
        assert FirstFailure(ds, i);
        Err(DecoderFailed(msg))
      case Decoded(env) =>
        MergeStep(ds, i, acc);
        Merge(ds, i + 1, acc + env)
  }

  /** Laying decoder `i`'s overlay over the merge of the decoders before it gives
      the merge of the first `i + 1`. */
  lemma MergeStep(ds: seq<DecodeResult>, i: nat, acc: map<string, string>)
    requires i < |ds| && ds[i].Decoded?
    requires MergeOf(ds, i, acc)
    ensures MergeOf(ds, i + 1, acc + ds[i].env)
  {
    var env := ds[i].env;
    var next := acc + env;
    forall k, l | LastSupplier(ds, i + 1, l, k)
      ensures k in next && next[k] == ds[l].env[k]
    {
      if l < i {
        assert !Supplies(ds, i, k);
        assert LastSupplier(ds, i, l, k);
      }
    }
    forall k | k in next
      ensures exists l :: l < i + 1 && Supplies(ds, l, k)
    {
      if k in env {
        assert Supplies(ds, i, k);
      }
    }
    forall k, l | l < i + 1 && Supplies(ds, l, k)
      ensures k in next
    {
      if l < i {
        assert k in acc;
      }
    }
  }
}
