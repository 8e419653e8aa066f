/**
 * The benchmark set an instance name belongs to (vrplib/download/download_utils.py, with the
 * set and name lists of vrplib/download/constants.py).
 */
module DownloadUtils {
  import opened Wrappers
  import opened Text

  const CvrpSets: seq<string> := ["A", "B", "E", "F", "M", "P", "CMT", "tai", "Golden", "Li", "X", "XXL"]
  const XxlNames: seq<string> := ["Antwerp", "Brussels", "Flanders", "Ghent", "Leuven"]
  const DimacsNames: seq<string> := ["Loggi", "ORTEC"]

  /** The alternatives of the pattern `(R|C|RC)[12]`. */
  const VrptwLetters: seq<string> := ["R", "C", "RC"]

  /** `re.match("(R|C|RC)[12]", name)`: one of the alternatives at the start, then a 1 or a 2. */
  predicate MatchesVrptw(name: string) {
    exists a :: 0 <= a < |VrptwLetters| && StartsWith(name, VrptwLetters[a])
      && |VrptwLetters[a]| < |name| && name[|VrptwLetters[a]|] in "12"
  }

  /** `any(name.startswith(p) for p in prefixes)`. */
  predicate AnyPrefix(prefixes: seq<string>, name: string) {
    exists k :: 0 <= k < |prefixes| && StartsWith(name, prefixes[k])
  }

  /** `for p in prefixes: if name.startswith(p): return p`. */
  function FirstPrefix(prefixes: seq<string>, name: string): (r: Option<string>)
    ensures r.Some? ==> r.value in prefixes && StartsWith(name, r.value)
  {
    if prefixes == [] then None
    else if StartsWith(name, prefixes[0]) then Some(prefixes[0])
    else FirstPrefix(prefixes[1..], name)
  }

  /** The loop finds nothing exactly when no prefix matches, and otherwise the first that does. */
  lemma {:induction false} FirstPrefixFirst(prefixes: seq<string>, name: string)
    ensures FirstPrefix(prefixes, name).None? <==> !AnyPrefix(prefixes, name)
    ensures FirstPrefix(prefixes, name).Some? ==>
      exists k :: 0 <= k < |prefixes| && prefixes[k] == FirstPrefix(prefixes, name).value
        && StartsWith(name, prefixes[k]) && forall j :: 0 <= j < k ==> !StartsWith(name, prefixes[j])
  {
    if prefixes != [] && !StartsWith(name, prefixes[0]) {
      var tail := prefixes[1..];
      FirstPrefixFirst(tail, name);
      var r := FirstPrefix(tail, name);
      if r.Some? {
        var k :| 0 <= k < |tail| && tail[k] == r.value
          && StartsWith(name, tail[k]) && forall j :: 0 <= j < k ==> !StartsWith(name, tail[j]);
        forall j | 0 < j < k + 1 ensures !StartsWith(name, prefixes[j]) {
          assert prefixes[j] == tail[j - 1];
        }
        assert prefixes[k + 1] == r.value;
      }
      if AnyPrefix(prefixes, name) {
        var k :| 0 <= k < |prefixes| && StartsWith(name, prefixes[k]);
        assert tail[k - 1] == prefixes[k];
      }
    }
  }

  /** find_set: the set of an instance name, in the order the source tries them. */
  function FindSet(name: string): Result<string> {
    if MatchesVrptw(name) then
      if '_' in name then Ok("HG") else Ok("Solomon")
    else if AnyPrefix(XxlNames, name) then Ok("XXL")
    else if AnyPrefix(DimacsNames, name) then Ok("D")
    else match FirstPrefix(CvrpSets, name)
      case Some(s) => Ok(s)
      case None => Err(ValueError("Set name not known for instance: " + name + "."))
  }

  /** is_vrptw: whether find_set gives HG or Solomon; a name find_set does not know raises. */
  function IsVrptw(name: string): (r: Result<bool>)
    ensures r.Ok? <==> FindSet(name).Ok?
    ensures r.Ok? ==> (r.value <==> FindSet(name).value == "HG" || FindSet(name).value == "Solomon")
  {
    match FindSet(name)
    case Err(e) => Err(e)
    case Ok(s) => Ok(s == "HG" || s == "Solomon")
  }

  // ----- properties -----

  /** The pattern matches exactly the names that start with R1, R2, C1, C2, RC1 or RC2. */
  lemma MatchesVrptwPrefixes(name: string)
    ensures MatchesVrptw(name) <==> AnyPrefix(["R1", "R2", "C1", "C2", "RC1", "RC2"], name)
  {
    var ps := ["R1", "R2", "C1", "C2", "RC1", "RC2"];
    if MatchesVrptw(name) {
      var a :| 0 <= a < |VrptwLetters| && StartsWith(name, VrptwLetters[a])
        && |VrptwLetters[a]| < |name| && name[|VrptwLetters[a]|] in "12";
      var k := 2 * a + (if name[|VrptwLetters[a]|] == '1' then 0 else 1);
      assert name[..|ps[k]|] == name[..|VrptwLetters[a]|] + [name[|VrptwLetters[a]|]];
      assert StartsWith(name, ps[k]);
    }
    if AnyPrefix(ps, name) {
      var k :| 0 <= k < |ps| && StartsWith(name, ps[k]);
      var a := k / 2;
      assert name[..|VrptwLetters[a]|] == name[..|ps[k]|][..|VrptwLetters[a]|];
      assert name[|VrptwLetters[a]|] == name[..|ps[k]|][|VrptwLetters[a]|];
      assert StartsWith(name, VrptwLetters[a]) && name[|VrptwLetters[a]|] in "12";
    }
  }

  /** A VRPTW name is HG exactly when it contains an underscore, and Solomon otherwise. */
  lemma VrptwNames(name: string)
    requires MatchesVrptw(name)
    ensures FindSet(name) == (if '_' in name then Ok("HG") else Ok("Solomon"))
    ensures IsVrptw(name) == Ok(true)
  {
  }

  /**
   * The checks in order: an XXL name, then a DIMACS name, then the first CVRP set that is a
   * prefix; a name none of them knows raises ValueError.
   */
  lemma OtherNames(name: string)
    requires !MatchesVrptw(name)
    ensures AnyPrefix(XxlNames, name) ==> FindSet(name) == Ok("XXL")
    ensures !AnyPrefix(XxlNames, name) && AnyPrefix(DimacsNames, name) ==> FindSet(name) == Ok("D")
    ensures !AnyPrefix(XxlNames, name) && !AnyPrefix(DimacsNames, name) ==>
      if AnyPrefix(CvrpSets, name) then
        exists k :: 0 <= k < |CvrpSets| && FindSet(name) == Ok(CvrpSets[k])
          && StartsWith(name, CvrpSets[k]) && forall j :: 0 <= j < k ==> !StartsWith(name, CvrpSets[j])
      else FindSet(name) == Err(ValueError("Set name not known for instance: " + name + "."))
  {
    FirstPrefixFirst(CvrpSets, name);
  }

  /** is_vrptw holds exactly for the names the pattern matches. */
  lemma IsVrptwExactly(name: string)
    requires FindSet(name).Ok?
    ensures IsVrptw(name) == Ok(MatchesVrptw(name))
  {
    if !MatchesVrptw(name) && !AnyPrefix(XxlNames, name) && !AnyPrefix(DimacsNames, name) {
      var s := FirstPrefix(CvrpSets, name).value;
      assert s in CvrpSets;
    }
  }

  /**
   * The CVRP set "XXL" is never returned through the set list: every name starting with XXL
   * starts with X, which comes first. Only the XXL instance names give "XXL".
   */
  lemma XxlOnlyByName(name: string)
    requires FindSet(name) == Ok("XXL")
    ensures AnyPrefix(XxlNames, name)
  {
    if !MatchesVrptw(name) && !AnyPrefix(XxlNames, name) && !AnyPrefix(DimacsNames, name) {
      OtherNames(name);
      var k :| 0 <= k < |CvrpSets| && FindSet(name) == Ok(CvrpSets[k])
        && StartsWith(name, CvrpSets[k]) && forall j :: 0 <= j < k ==> !StartsWith(name, CvrpSets[j]);
      assert k == 11;
      assert name[..1] == name[..3][..1];
      assert StartsWith(name, CvrpSets[10]);
      assert false;
    }
  }

  // ----- names from the test data -----

  lemma SolomonAndHgExamples()
    ensures FindSet("C101") == Ok("Solomon")
    ensures FindSet("C1_2_1") == Ok("HG")
  {
    assert StartsWith("C101", VrptwLetters[1]);
    assert StartsWith("C1_2_1", VrptwLetters[1]);
    assert "C1_2_1"[2] == '_';
  }

  /** A name that differs from p at a position of p does not start with p. */
  lemma DiffersAt(name: string, p: string, i: nat)
    requires i < |p| && i < |name| && name[i] != p[i]
    ensures !StartsWith(name, p)
  {
  }

  /** A name whose first letter no prefix starts with has none of them as prefix. */
  lemma NoPrefixByFirst(prefixes: seq<string>, name: string)
    requires name != []
    requires forall k :: 0 <= k < |prefixes| ==> prefixes[k] != [] && prefixes[k][0] != name[0]
    ensures !AnyPrefix(prefixes, name)
  {
    forall k | 0 <= k < |prefixes| ensures !StartsWith(name, prefixes[k]) {
      DiffersAt(name, prefixes[k], 0);
    }
  }

  /** Prefixes that do not match are passed over. */
  lemma {:induction false} FirstPrefixSkip(prefixes: seq<string>, name: string, m: nat)
    requires m <= |prefixes| && forall j :: 0 <= j < m ==> !StartsWith(name, prefixes[j])
    ensures FirstPrefix(prefixes, name) == FirstPrefix(prefixes[m..], name)
  {
    if m > 0 {
      assert prefixes[1..][m - 1..] == prefixes[m..];
      FirstPrefixSkip(prefixes[1..], name, m - 1);
    }
  }

  /** Every name starting with X is in set X, including names starting with XXL. */
  lemma XNames(name: string)
    requires name != [] && name[0] == 'X'
    ensures FindSet(name) == Ok("X")
  {
    NoPrefixByFirst(VrptwLetters, name);
    NoPrefixByFirst(XxlNames, name);
    NoPrefixByFirst(DimacsNames, name);
    var front := CvrpSets[..10];
    NoPrefixByFirst(front, name);
    forall j | 0 <= j < 10 ensures !StartsWith(name, CvrpSets[j]) {
      assert CvrpSets[j] == front[j];
    }
    FirstPrefixSkip(CvrpSets, name, 10);
    assert CvrpSets[10..] == ["X", "XXL"];
    assert StartsWith(name, "X") by {
      assert name[..1] == [name[0]];
    }
  }

  lemma CvrpExamples()
    ensures FindSet("X-n101-k25") == Ok("X")
    ensures FindSet("XXL-n1") == Ok("X")
  {
    XNames("X-n101-k25");
    XNames("XXL-n1");
  }

  lemma UnknownExample()
    ensures FindSet("test_name").Err?
  {
    var n := "test_name";
    NoPrefixByFirst(VrptwLetters, n);
    NoPrefixByFirst(XxlNames, n);
    NoPrefixByFirst(DimacsNames, n);
    assert !AnyPrefix(CvrpSets, n) by {
      forall k | 0 <= k < |CvrpSets| ensures !StartsWith(n, CvrpSets[k]) {
        if k == 7 {
          DiffersAt(n, CvrpSets[k], 1);
        } else {
          DiffersAt(n, CvrpSets[k], 0);
        }
      }
    }
    FirstPrefixFirst(CvrpSets, n);
  }
}
