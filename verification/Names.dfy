/** Joint names of a message and where Python dictionaries built from them point. */
module Names {

  /** Where a name was last listed. */
  function LastIndex(names: seq<string>, name: string): (i: nat)
    requires name in names
    ensures i < |names| && names[i] == name && name !in names[i + 1..]
  {
    var n := |names| - 1;
    if names[n] == name then n
    else
      assert names == names[..n] + [names[n]];
      var i := LastIndex(names[..n], name);
      assert names[i + 1..] == names[..n][i + 1..] + [names[n]];
      i
  }

  ghost predicate Indexes(index: map<string, nat>, names: seq<string>) {
    && (forall name :: name in index <==> name in names)
    && (forall name | name in index :: index[name] == LastIndex(names, name))
  }

  /** A dictionary from names to their places: a name listed twice keeps its last place. */
  method BuildIndex(names: seq<string>) returns (index: map<string, nat>)
    ensures Indexes(index, names)
  {
    index := map[];
    for i := 0 to |names|
      invariant Indexes(index, names[..i])
    {
      assert names[..i + 1] == names[..i] + [names[i]];
      assert names[..i + 1][..i] == names[..i];
      index := index[names[i] := i];
    }
    assert names[..|names|] == names;
  }
}
