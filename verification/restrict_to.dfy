/** The optional allow-list of keys (getRestrictTo, populate.go:75-87). */
module RestrictTo {
  import opened Common

  /** Some key occurs twice in `keys`. */
  predicate HasDuplicate(keys: seq<string>) {
    exists a, b :: 0 <= a < b < |keys| && keys[a] == keys[b]
  }

  /** Position `j` is the first repeat: keys[j] occurred earlier and nothing before j repeats. */
  predicate FirstRepeat(keys: seq<string>, j: int) {
    0 <= j < |keys| && keys[j] in keys[..j] && !HasDuplicate(keys[..j])
  }

  /** No keys means no restriction; a repeated key is an error naming the first
      repeat; otherwise the allow-list is exactly the set of given keys. */
  function GetRestrictTo(keys: seq<string>): (r: Result<Option<set<string>>>)
    ensures |keys| == 0 ==> r == Ok(None)
    ensures r.Err? <==> HasDuplicate(keys)
    ensures r.Err? ==> exists j :: FirstRepeat(keys, j) && r.error == DuplicateRestrictToKey(keys[j])
    ensures r.Ok? && |keys| > 0 ==> r.value == Some(set k | k in keys)
  {
    if |keys| == 0 then Ok(None)
    else
      match Collect(keys, 0, {})
      case Ok(s) => Ok(Some(s))
      case Err(e) => Err(e)
  }

  /** The loop of populate.go:80-85 from position `i`, with the keys seen so far. */
  function Collect(keys: seq<string>, i: nat, seen: set<string>): (r: Result<set<string>>)
    requires i <= |keys|
    requires seen == set k | k in keys[..i]
    requires !HasDuplicate(keys[..i])
    ensures r.Err? <==> HasDuplicate(keys)
    ensures r.Err? ==> exists j :: FirstRepeat(keys, j) && r.error == DuplicateRestrictToKey(keys[j])
    ensures r.Ok? ==> r.value == set k | k in keys
    decreases |keys| - i
  {
    if i == |keys| then
      assert keys[..i] == keys;
      Ok(seen)
    else if keys[i] in seen then
      assert FirstRepeat(keys, i);
      var a :| 0 <= a < i && keys[..i][a] == keys[i];
      assert keys[a] == keys[i];
      Err(DuplicateRestrictToKey(keys[i]))
    else
      assert keys[..i + 1] == keys[..i] + [keys[i]];
      Collect(keys, i + 1, seen + {keys[i]})
  }
}
