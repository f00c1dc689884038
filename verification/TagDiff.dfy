/** Replacing the tags of an endpoint or a probe by difference (endpoint.go, probe.go). */
module TagDiff {
  import opened Model

  /** Which tags to delete and which to add, each once, however often the request repeats one. */
  method DiffTags(existing: seq<string>, requested: seq<string>) returns (toDelete: set<string>, toAdd: set<string>)
    ensures toDelete == Elements(existing) - Elements(requested)
    ensures toAdd == Elements(requested) - Elements(existing)
  {
    var tagMap: map<string, bool> := map[];
    for i := 0 to |existing|
      invariant tagMap.Keys == Elements(existing[..i])
      invariant forall x :: x in tagMap ==> !tagMap[x]
    {
      assert Elements(existing[..i + 1]) == Elements(existing[..i]) + {existing[i]};
      tagMap := tagMap[existing[i] := false];
    }
    assert existing[..|existing|] == existing;
    toAdd := {};
    for i := 0 to |requested|
      invariant tagMap.Keys == Elements(existing) + Elements(requested[..i])
      invariant forall x :: x in tagMap ==> (tagMap[x] <==> x in requested[..i])
      invariant toAdd == Elements(requested[..i]) - Elements(existing)
    {
      assert requested[..i + 1] == requested[..i] + [requested[i]];
      if requested[i] !in tagMap {
        toAdd := toAdd + {requested[i]};
      }
      tagMap := tagMap[requested[i] := true];
    }
    assert requested[..|requested|] == requested;
    toDelete := {};
    var rest := tagMap.Keys;
    while rest != {}
      invariant rest <= tagMap.Keys
      invariant toDelete == set x | x in tagMap.Keys - rest && !tagMap[x]
      decreases rest
    {
      var x := Pick(rest);
      rest := rest - {x};
      if !tagMap[x] {
        toDelete := toDelete + {x};
      }
    }
  }
}
