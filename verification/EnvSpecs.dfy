/**
 * The variables `wcm run` sets for its child: later mappings override earlier ones
 * (crates/wcm-cli/src/commands/run.rs).
 */
module EnvSpecs {
  import opened Basics
  import opened Body
  import opened Sorting

  /** A variable taken from the vault, or with a literal value. */
  datatype EnvSpec = Secret(variable: string, spec: string) | Plain(variable: string, value: string)

  function Vars(specs: seq<EnvSpec>): (r: seq<string>)
    ensures |r| == |specs|
  {
    seq(|specs|, i requires 0 <= i < |specs| => specs[i].variable)
  }

  /** The environment that setting the variables one after the other makes. */
  ghost function EnvOf(specs: seq<EnvSpec>): map<string, EnvSpec> {
    if specs == [] then map[]
    else
      var n := |specs| - 1;
      EnvOf(specs[..n])[specs[n].variable := specs[n]]
  }

  lemma {:induction false} DedupSnoc(acc: seq<string>, names: seq<string>, x: string)
    ensures var d := DedupNames(acc, names);
            DedupNames(acc, names + [x]) == if x in d then d else d + [x]
    decreases |names|
  {
    if names == [] {
      assert names + [x] == [x] && [x][1..] == [];
    } else {
      assert (names + [x])[1..] == names[1..] + [x];
      DedupSnoc(if names[0] in acc then acc else acc + [names[0]], names[1..], x);
    }
  }

  /** Overwriting the one spec of a variable where it stands is setting the variable last. */
  lemma {:induction false} ReplaceInPlace(out: seq<EnvSpec>, i: nat, s: EnvSpec)
    requires Distinct(Vars(out)) && i < |out| && out[i].variable == s.variable
    ensures EnvOf(out[i := s]) == EnvOf(out)[s.variable := s]
  {
    var n := |out| - 1;
    assert out[i := s][n] == if i == n then s else out[n];
    if i == n {
      assert out[i := s][..n] == out[..n];
    } else {
      assert out[i := s][..n] == out[..n][i := s];
      assert Vars(out)[i] != Vars(out)[n];
      forall j, k | 0 <= j < k < n ensures Vars(out[..n])[j] != Vars(out[..n])[k] {
        assert Vars(out)[j] != Vars(out)[k];
      }
      ReplaceInPlace(out[..n], i, s);
    }
  }

  /** `iter().position` by variable */
  method Position(out: seq<EnvSpec>, variable: string) returns (r: Option<nat>)
    ensures r.Some? ==> r.value < |out| && out[r.value].variable == variable
    ensures r.None? ==> variable !in Vars(out)
  {
    for i := 0 to |out|
      invariant forall j | 0 <= j < i :: out[j].variable != variable
    {
      if out[i].variable == variable { return Some(i); }
    }
    r := None;
  }

  /** A spec of a variable not seen before. */
  lemma AppendSpec(out: seq<EnvSpec>, s: EnvSpec)
    ensures EnvOf(out + [s]) == EnvOf(out)[s.variable := s] && Vars(out + [s]) == Vars(out) + [s.variable]
  {
    assert (out + [s])[..|out|] == out;
  }

  lemma PrefixSpecs(specs: seq<EnvSpec>, i: nat)
    requires i < |specs|
    ensures Vars(specs[..i + 1]) == Vars(specs[..i]) + [specs[i].variable]
    ensures EnvOf(specs[..i + 1]) == EnvOf(specs[..i])[specs[i].variable := specs[i]]
  {
    assert specs[..i + 1][..i] == specs[..i];
  }

  /**
   * Each variable is kept once, where it was first seen, and the child's environment is the one that
   * setting all the specs in turn would have made.
   */
  method DedupLastWins(specs: seq<EnvSpec>) returns (out: seq<EnvSpec>)
    ensures Vars(out) == DedupNames([], Vars(specs)) && Distinct(Vars(out))
    ensures EnvOf(out) == EnvOf(specs)
  {
    out := [];
    for i := 0 to |specs|
      invariant Vars(out) == DedupNames([], Vars(specs[..i])) && Distinct(Vars(out))
      invariant EnvOf(out) == EnvOf(specs[..i])
    {
      var s := specs[i];
      PrefixSpecs(specs, i);
      DedupSnoc([], Vars(specs[..i]), s.variable);
      var at := Position(out, s.variable);
      match at {
        case Some(k) =>
          ReplaceInPlace(out, k, s);
          assert Vars(out[k := s]) == Vars(out) && Vars(out)[k] == s.variable;
          out := out[k := s];
        case None =>
          AppendSpec(out, s);
          out := out + [s];
      }
    }
    assert specs[..|specs|] == specs;
  }
}
