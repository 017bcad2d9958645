module Options {
  datatype Option<+T> = None | Some(value: T)

  /** Of the first `n` steps, the last one that raises or drops a flag raises it. */
  ghost predicate Raised<Step(!new)>(steps: seq<Step>, n: nat, raises: Step -> bool, drops: Step -> bool)
    requires n <= |steps|
  {
    exists k :: 0 <= k < n && raises(steps[k]) && forall j :: k < j < n ==> !drops(steps[j])
  }

  lemma RaisedSnoc<Step(!new)>(steps: seq<Step>, n: nat, raises: Step -> bool, drops: Step -> bool)
    requires n < |steps|
    ensures Raised(steps, n + 1, raises, drops)
            <==> raises(steps[n]) || (!drops(steps[n]) && Raised(steps, n, raises, drops))
  {
    if !raises(steps[n]) && Raised(steps, n + 1, raises, drops) {
      var k :| 0 <= k < n + 1 && raises(steps[k]) && forall j :: k < j < n + 1 ==> !drops(steps[j]);
    }
  }
}
