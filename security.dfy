/** The scope test both routes run: every scope of one list must appear in another. */
module Security {
  import opened Wrappers

  /**
   * The loop `for scope in required: if scope not in granted: raise ...`, which stops at the
   * first scope `granted` lacks: `None` when there is none, else that first missing scope.
   */
  function FirstMissing(required: seq<string>, granted: seq<string>): (r: Option<string>)
    ensures r.None? <==> forall s :: s in required ==> s in granted
    ensures r.Some? ==> exists i :: 0 <= i < |required| && required[i] == r.value && r.value !in granted
                                    && forall j :: 0 <= j < i ==> required[j] in granted
    decreases |required|
  {
    if required == [] then None
    else if required[0] !in granted then Some(required[0])
    else
      var r := FirstMissing(required[1..], granted);
      assert forall s :: s in required ==> s == required[0] || s in required[1..];
      assert r.Some? ==> exists i :: 0 < i < |required| && required[i] == r.value && r.value !in granted
                                     && forall j :: 0 <= j < i ==> required[j] in granted;
      r
  }
}
