/** The fixed configuration of the service: the operators it reports on and
    the coverage radius, in kilometres, of each radio technology. */
module Config {
  import opened Text

  /** Operators reported on. */
  const Operators: seq<string> := ["orange", "sfr", "bouygues", "free"]

  /** Coverage radius in kilometres per technology. */
  const Radii: map<string, int> := map["2G" := 30, "3G" := 5, "4G" := 10]

  /** The radius table covers exactly the three technologies, each with a
      positive radius: 30 km for 2G, 5 km for 3G and 10 km for 4G. */
  lemma RadiiTable()
    ensures Radii.Keys == {"2G", "3G", "4G"}
    ensures Radii["2G"] == 30 && Radii["3G"] == 5 && Radii["4G"] == 10
    ensures forall tech :: tech in Radii ==> Radii[tech] > 0
  {
  }

  /** Four operators, no name listed twice. */
  lemma OperatorsDistinct()
    ensures |Operators| == 4
    ensures forall i, j :: 0 <= i < j < |Operators| ==> Operators[i] != Operators[j]
  {
  }

  /** Every configured operator name is already lower case, so the
      lowercased list used to filter the raw table equals the list itself. */
  lemma OperatorsLowercase()
    ensures forall i :: 0 <= i < |Operators| ==> IsLower(Operators[i])
    ensures seq(|Operators|, i requires 0 <= i < |Operators| => Lower(Operators[i])) == Operators
  {
    forall i | 0 <= i < |Operators| ensures IsLower(Operators[i]) && Lower(Operators[i]) == Operators[i] {
      var s := Operators[i];
      assert s == "orange" || s == "sfr" || s == "bouygues" || s == "free";
      LowerFacts(s);
    }
  }
}
