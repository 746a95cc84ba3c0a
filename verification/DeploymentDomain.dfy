/** The outcome of a Deployment run: unit results, the phase they fold to, and the
    error a failed result turns back into. */
module DeploymentDomain {
  import opened Prelude

  datatype UnitPhase = UnitReady | UnitDeploying | UnitFailed | UnitOther(name: string)

  datatype UnitResult = UnitResult(name: string, phase: UnitPhase, image: string, runtime: string, error: string)

  datatype Phase = PhasePending | PhaseDeploying | PhaseReady | PhaseFailed | PhaseReconciling | PhaseOther(name: string)

  datatype DeploymentResult = DeploymentResult(
    phase: Phase, message: string, runtime: string, strategy: string, units: seq<UnitResult>)

  /** errors.Join and wrapping keep their parts; everything else is its text. */
  datatype Error = Plain(text: string) | DeploymentFailed(text: string) | Joined(first: Error, second: Error)

  function Text(e: Error): string {
    match e
    case Plain(t) => t
    case DeploymentFailed(t) => t
    case Joined(a, b) => Text(a) + "\n" + Text(b)
  }

  predicate Carries(e: Error, part: Error) {
    e == part || (e.Joined? && (Carries(e.first, part) || Carries(e.second, part)))
  }

  /** part stands somewhere in text. */
  predicate Contains(text: string, part: string) {
    exists i, j :: 0 <= i <= j <= |text| && text[i..j] == part
  }

  lemma ContainsAt(before: string, part: string, after: string)
    ensures Contains(before + part + after, part)
  {
    assert (before + part + after)[|before|..|before| + |part|] == part;
  }

  lemma ContainsTransitive(text: string, middle: string, part: string)
    requires Contains(text, middle) && Contains(middle, part)
    ensures Contains(text, part)
  {
    var i, j :| 0 <= i <= j <= |text| && text[i..j] == middle;
    var k, l :| 0 <= k <= l <= |middle| && middle[k..l] == part;
    forall m | 0 <= m < l - k ensures text[i + k..i + l][m] == part[m] {
      assert part[m] == middle[k + m] == text[i + (k + m)];
    }
    assert text[i + k..i + l] == part;
  }

  /** The text of an error has in it the text of every error it carries. */
  lemma {:induction false} CarriedTextIsThere(e: Error, part: Error)
    requires Carries(e, part)
    ensures Contains(Text(e), Text(part))
  {
    if e == part {
      assert Text(e)[0..|Text(e)|] == Text(part);
    } else if Carries(e.first, part) {
      CarriedTextIsThere(e.first, part);
      ContainsAt("", Text(e.first), "\n" + Text(e.second));
      assert Text(e) == "" + Text(e.first) + ("\n" + Text(e.second));
      ContainsTransitive(Text(e), Text(e.first), Text(part));
    } else {
      CarriedTextIsThere(e.second, part);
      ContainsAt(Text(e.first) + "\n", Text(e.second), "");
      assert Text(e) == Text(e.first) + "\n" + Text(e.second) + "";
      ContainsTransitive(Text(e), Text(e.second), Text(part));
    }
  }

  // ---------------------------------------------------------------------------
  // Phase
  // ---------------------------------------------------------------------------

  predicate AnyFailed(results: seq<UnitResult>) {
    exists i :: 0 <= i < |results| && results[i].phase.UnitFailed?
  }

  predicate AllReady(results: seq<UnitResult>) {
    forall i :: 0 <= i < |results| ==> results[i].phase.UnitReady?
  }

  method DeriveDeploymentPhase(results: seq<UnitResult>) returns (phase: Phase)
    ensures phase.PhasePending? <==> results == []
    ensures phase.PhaseFailed? <==> AnyFailed(results)
    ensures phase.PhaseReady? <==> results != [] && AllReady(results)
    ensures phase.PhasePending? || phase.PhaseFailed? || phase.PhaseReady? || phase.PhaseDeploying?
    ensures phase == PhaseOf(results)
  {
    if |results| == 0 {
      return PhasePending;
    }
    var allReady := true;
    for i := 0 to |results|
      invariant !AnyFailed(results[..i])
      invariant allReady <==> AllReady(results[..i])
    {
      assert results[..i + 1] == results[..i] + [results[i]];
      match results[i].phase {
        case UnitFailed => return PhaseFailed;
        case UnitReady =>
        case _ => allReady := false;
      }
    }
    assert results[..|results|] == results;
    return if allReady then PhaseReady else PhaseDeploying;
  }

  function PhaseOf(results: seq<UnitResult>): Phase {
    if results == [] then PhasePending
    else if AnyFailed(results) then PhaseFailed
    else if AllReady(results) then PhaseReady
    else PhaseDeploying
  }

  /** The order of the results does not matter. */
  lemma PhaseIgnoresOrder(xs: seq<UnitResult>, ys: seq<UnitResult>)
    requires multiset(xs) == multiset(ys)
    ensures PhaseOf(xs) == PhaseOf(ys)
  {
    assert |xs| == |multiset(xs)| == |multiset(ys)| == |ys|;
    SameMembers(xs, ys);
    SameMembers(ys, xs);
  }

  lemma SameMembers(xs: seq<UnitResult>, ys: seq<UnitResult>)
    requires multiset(xs) == multiset(ys)
    ensures AnyFailed(xs) ==> AnyFailed(ys)
    ensures AllReady(ys) ==> AllReady(xs)
  {
    forall i | 0 <= i < |xs| ensures exists j :: 0 <= j < |ys| && ys[j] == xs[i] {
      assert xs[i] in multiset(xs);
      assert xs[i] in multiset(ys);
    }
  }

  // ---------------------------------------------------------------------------
  // Failure
  // ---------------------------------------------------------------------------

  /** The positions of the failed units: all of them, no others, in order. */
  function FailedAt(units: seq<UnitResult>): (at: seq<nat>)
    ensures forall k :: 0 <= k < |at| ==> at[k] < |units| && units[at[k]].phase.UnitFailed?
    ensures forall k, l :: 0 <= k < l < |at| ==> at[k] < at[l]
    ensures forall i :: 0 <= i < |units| && units[i].phase.UnitFailed? ==> i in at
  {
    if units == [] then []
    else
      var before := FailedAt(units[..|units| - 1]);
      if units[|units| - 1].phase.UnitFailed? then before + [|units| - 1] else before
  }

  function Describe(u: UnitResult): string {
    if u.error != "" then "serviceunit " + u.name + ": " + u.error else "serviceunit " + u.name + " failed"
  }

  function Join(parts: seq<string>, separator: string): string {
    if parts == [] then "" else if |parts| == 1 then parts[0]
    else parts[0] + separator + Join(parts[1..], separator)
  }

  /** What the error lists. */
  function FailedNames(units: seq<UnitResult>): seq<string> {
    if units == [] then []
    else
      var last := units[|units| - 1];
      FailedNames(units[..|units| - 1]) + if last.phase.UnitFailed? then [Describe(last)] else []
  }

  /** It lists all and only the failed units, in order. */
  lemma {:induction false} FailedNamesAreTheFailedUnits(units: seq<UnitResult>)
    ensures |FailedNames(units)| == |FailedAt(units)|
    ensures forall k :: 0 <= k < |FailedAt(units)| ==>
              var u := units[FailedAt(units)[k]];
              && FailedNames(units)[k] == Describe(u)
              && FailedNames(units)[k] == (if u.error != "" then "serviceunit " + u.name + ": " + u.error else "serviceunit " + u.name + " failed")
  {
    if units != [] {
      var front := units[..|units| - 1];
      FailedNamesAreTheFailedUnits(front);
      forall k | 0 <= k < |FailedAt(units)|
        ensures FailedNames(units)[k] == Describe(units[FailedAt(units)[k]])
      {
        if k < |FailedAt(front)| {
          assert FailedAt(units)[k] == FailedAt(front)[k];
        }
      }
    }
  }

  lemma {:induction false} JoinHoldsEveryPart(parts: seq<string>, separator: string, k: nat)
    requires k < |parts|
    ensures Contains(Join(parts, separator), parts[k])
    decreases |parts|
  {
    var text := Join(parts, separator);
    if k == 0 {
      if |parts| == 1 {
        ContainsAt("", parts[0], "");
        assert text == "" + parts[0] + "";
      } else {
        ContainsAt("", parts[0], separator + Join(parts[1..], separator));
        assert text == "" + parts[0] + (separator + Join(parts[1..], separator));
      }
    } else {
      var rest := Join(parts[1..], separator);
      JoinHoldsEveryPart(parts[1..], separator, k - 1);
      ContainsAt(parts[0] + separator, rest, "");
      assert text == parts[0] + separator + rest + "";
      ContainsTransitive(text, rest, parts[k]);
    }
  }

  lemma DescriptionTells(u: UnitResult)
    ensures Contains(Describe(u), u.name) && Contains(Describe(u), u.error)
  {
    var text := Describe(u);
    if u.error != "" {
      ContainsAt("serviceunit ", u.name, ": " + u.error);
      assert text == "serviceunit " + u.name + (": " + u.error);
      ContainsAt("serviceunit " + u.name + ": ", u.error, "");
      assert text == "serviceunit " + u.name + ": " + u.error + "";
    } else {
      ContainsAt("serviceunit ", u.name, " failed");
      assert text[0..0] == u.error;
    }
  }

  /** The list names every failed unit and says why it failed. */
  lemma ListTellsOfEveryFailedUnit(units: seq<UnitResult>, i: nat)
    requires i < |units| && units[i].phase.UnitFailed?
    ensures var list := Join(FailedNames(units), "; "); Contains(list, units[i].name) && Contains(list, units[i].error)
  {
    FailedNamesAreTheFailedUnits(units);
    var k :| 0 <= k < |FailedAt(units)| && FailedAt(units)[k] == i;
    var list := Join(FailedNames(units), "; ");
    JoinHoldsEveryPart(FailedNames(units), "; ", k);
    DescriptionTells(units[i]);
    ContainsTransitive(list, Describe(units[i]), units[i].name);
    ContainsTransitive(list, Describe(units[i]), units[i].error);
  }

  lemma {:induction false} NoneFailedIffNoNames(units: seq<UnitResult>)
    ensures FailedNames(units) == [] <==> !AnyFailed(units)
  {
    if units != [] {
      var front := units[..|units| - 1];
      NoneFailedIffNoNames(front);
      assert AnyFailed(units) <==> AnyFailed(front) || units[|front|].phase.UnitFailed? by {
        if i :| 0 <= i < |units| && units[i].phase.UnitFailed? && i < |front| {
          assert front[i].phase.UnitFailed?;
        }
        if AnyFailed(front) {
          var i :| 0 <= i < |front| && front[i].phase.UnitFailed?;
          assert units[i].phase.UnitFailed?;
        }
      }
    }
  }

  lemma PrefixedListTells(units: seq<UnitResult>)
    ensures var text := "deployment failed: " + Join(FailedNames(units), "; ");
            forall i :: 0 <= i < |units| && units[i].phase.UnitFailed? ==> Contains(text, units[i].name) && Contains(text, units[i].error)
  {
    var list := Join(FailedNames(units), "; ");
    var text := "deployment failed: " + list;
    ContainsAt("deployment failed: ", list, "");
    assert text == "deployment failed: " + list + "";
    forall i | 0 <= i < |units| && units[i].phase.UnitFailed?
      ensures Contains(text, units[i].name) && Contains(text, units[i].error)
    {
      ListTellsOfEveryFailedUnit(units, i);
      ContainsTransitive(text, list, units[i].name);
      ContainsTransitive(text, list, units[i].error);
    }
  }

  method Failure(r: Option<DeploymentResult>) returns (err: Option<Error>)
    ensures err.Some? <==> r.Some? && r.value.phase.PhaseFailed?
    ensures err.Some? ==> err.value.DeploymentFailed?
    ensures err.Some? && AnyFailed(r.value.units) ==>
              err.value.text == "deployment failed: " + Join(FailedNames(r.value.units), "; ")
    ensures err.Some? ==>
              forall i :: 0 <= i < |r.value.units| && r.value.units[i].phase.UnitFailed? ==>
                Contains(err.value.text, r.value.units[i].name) && Contains(err.value.text, r.value.units[i].error)
    ensures err.Some? && !AnyFailed(r.value.units) ==>
              err.value.text == if r.value.message != "" then "deployment failed: " + r.value.message else "deployment failed"
  {
    if r.None? || r.value.phase != PhaseFailed {
      return None;
    }
    var units := r.value.units;
    var failed: seq<string> := [];
    for i := 0 to |units|
      invariant failed == FailedNames(units[..i])
    {
      assert units[..i + 1][..i] == units[..i];
      if units[i].phase == UnitFailed {
        failed := failed + [Describe(units[i])];
      }
    }
    assert units[..|units|] == units;
    NoneFailedIffNoNames(units);
    PrefixedListTells(units);
    if |failed| > 0 {
      return Some(DeploymentFailed("deployment failed: " + Join(failed, "; ")));
    }
    if r.value.message != "" {
      return Some(DeploymentFailed("deployment failed: " + r.value.message));
    }
    return Some(DeploymentFailed("deployment failed"));
  }
}
