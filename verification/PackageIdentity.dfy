/** A Package's identity and the names derived from it. */
module PackageIdentity {

  datatype PackageID = PackageID(namespace: string, name: string)

  datatype Account = Account(namespace: string, name: string)

  function AccountOf(id: PackageID): Account {
    Account(id.namespace, id.name + "-package")
  }

  lemma AccountsDiffer(a: PackageID, b: PackageID)
    requires a != b
    ensures AccountOf(a) != AccountOf(b)
  {
    if a.name + "-package" == b.name + "-package" {
      assert |a.name| == |b.name|;
      assert a.name == (a.name + "-package")[..|a.name|] == b.name;
    }
  }

  // ---------------------------------------------------------------------------
  // The name of the binding
  // ---------------------------------------------------------------------------

  function DeployerBindingName(id: PackageID): string {
    "blanketops-package-" + id.namespace + "-" + id.name
  }

  /** a's namespace is what b's begins with, up to a dash, and a's name ends with
      the rest of b's namespace, a dash and b's name. */
  ghost predicate Overlap(a: PackageID, b: PackageID) {
    exists t: string :: b.namespace == a.namespace + "-" + t && a.name == t + "-" + b.name
  }

  lemma NameIsTwoParts(id: PackageID)
    ensures DeployerBindingName(id) == "blanketops-package-" + (id.namespace + "-" + id.name)
  {
    assert "blanketops-package-" + id.namespace + "-" + id.name == "blanketops-package-" + (id.namespace + "-" + id.name);
  }

  lemma SameNameSplits(a: PackageID, b: PackageID)
    requires a.namespace + "-" + a.name == b.namespace + "-" + b.name
    requires |a.namespace| < |b.namespace|
    ensures Overlap(a, b)
  {
    var whole := a.namespace + "-" + a.name;
    var n, m := |a.namespace|, |b.namespace|;
    assert whole == b.namespace + "-" + b.name;
    assert whole[..n] == a.namespace && whole[n] == '-' && whole[n + 1..] == a.name;
    assert whole[..m] == b.namespace && whole[m] == '-' && whole[m + 1..] == b.name;
    var t := whole[n + 1..m];
    assert whole[..m] == whole[..n] + "-" + t;
    assert whole[n + 1..] == t + "-" + whole[m + 1..];
  }

  lemma SameLengthsSameIdentity(a: PackageID, b: PackageID)
    requires a.namespace + "-" + a.name == b.namespace + "-" + b.name
    requires |a.namespace| == |b.namespace|
    ensures a == b
  {
    var whole, n := a.namespace + "-" + a.name, |a.namespace|;
    assert whole == b.namespace + "-" + b.name;
    assert a.namespace == whole[..n] == b.namespace;
    assert a.name == whole[n + 1..] == b.name;
  }

  lemma OverlapMeansSameName(a: PackageID, b: PackageID)
    requires Overlap(a, b)
    ensures DeployerBindingName(a) == DeployerBindingName(b)
  {
    var t: string :| b.namespace == a.namespace + "-" + t && a.name == t + "-" + b.name;
    NameIsTwoParts(a);
    NameIsTwoParts(b);
    assert a.namespace + "-" + (t + "-" + b.name) == (a.namespace + "-" + t) + "-" + b.name;
  }

  /** Two Packages share a binding exactly when their identities overlap: carrying
      the namespace does not make the name unique. */
  lemma NamesCollideIffOverlap(a: PackageID, b: PackageID)
    requires a != b
    ensures DeployerBindingName(a) == DeployerBindingName(b) <==> Overlap(a, b) || Overlap(b, a)
  {
    if Overlap(a, b) {
      OverlapMeansSameName(a, b);
    }
    if Overlap(b, a) {
      OverlapMeansSameName(b, a);
    }
    if DeployerBindingName(a) == DeployerBindingName(b) {
      NameIsTwoParts(a);
      NameIsTwoParts(b);
      var x, y := a.namespace + "-" + a.name, b.namespace + "-" + b.name;
      assert x == ("blanketops-package-" + x)[19..] == ("blanketops-package-" + y)[19..] == y;
      if |a.namespace| < |b.namespace| {
        SameNameSplits(a, b);
      } else if |b.namespace| < |a.namespace| {
        SameNameSplits(b, a);
      } else {
        SameLengthsSameIdentity(a, b);
      }
    }
  }

  lemma OverlappingPackagesExist()
    ensures var a, b := PackageID("team", "web-shop"), PackageID("team-web", "shop");
            a != b && DeployerBindingName(a) == DeployerBindingName(b)
  {
    var a, b := PackageID("team", "web-shop"), PackageID("team-web", "shop");
    assert b.namespace == a.namespace + "-" + "web" && a.name == "web" + "-" + b.name;
    OverlapMeansSameName(a, b);
  }
}
