/**
 * The library-installation steps of the bootstrap script
 * (tools/scripts/bootstrap.py).
 *
 * Android only loads libraries whose file names end in ".so", so a library
 * whose soname carries a version ("libfoo.so.1.2") is installed under an
 * adjusted name of the same length ("libfoo_1_2.so"), and every occurrence
 * of the old soname inside the installed libraries is overwritten with the
 * new one byte for byte. The script also reports the libraries that are
 * needed but not provided and those provided but not needed, and maps the
 * target architecture to an Android ABI directory. Reading ELF headers,
 * files and processes is left to the caller: the model receives what they
 * would yield.
 */
module Bootstrap {
  import opened Wrappers

  /** The exceptions the script raises on the paths modelled here. */
  datatype BootstrapError =
    | AssertionFailed(name: string)        // a failed `assert`
    | NoAdjustedName(name: string)         // `__adjust_soname` fell through and returned None
    | ArchitectureNotSupported(arch: string)

  predicate EndsWith(s: string, suffix: string)
  {
    |s| >= |suffix| && s[|s| - |suffix|..] == suffix
  }

  /** `str.split('.')`: the pieces between dots, one more than there are dots. */
  function Split(s: string): (parts: seq<string>)
    ensures |parts| >= 1
    ensures forall i :: 0 <= i < |parts| ==> '.' !in parts[i]
  {
    if s == [] then [""]
    else
      var rest := Split(s[1..]);
      if s[0] == '.' then [""] + rest
      else [[s[0]] + rest[0]] + rest[1..]
  }

  /** `'.'.join(parts)`. */
  function Join(parts: seq<string>): string
  {
    if parts == [] then ""
    else if |parts| == 1 then parts[0]
    else parts[0] + "." + Join(parts[1..])
  }

  /** Joining the pieces of a split gives the string back. */
  lemma {:induction false} JoinSplit(s: string)
    ensures Join(Split(s)) == s
  {
    if s != [] {
      var rest := Split(s[1..]);
      JoinSplit(s[1..]);
      if s[0] == '.' {
        assert Split(s)[1..] == rest;
      } else if |rest| > 1 {
        assert Split(s)[1..] == rest[1..];
        assert Join(rest) == rest[0] + "." + Join(rest[1..]);
      }
    }
  }

  /** Splitting at a dot splits each side. */
  lemma {:induction false} SplitAppend(a: string, b: string)
    ensures Split(a + "." + b) == Split(a) + Split(b)
  {
    var s := a + "." + b;
    if a == [] {
      assert s[1..] == b;
    } else {
      assert s[0] == a[0];
      assert s[1..] == a[1..] + "." + b;
      SplitAppend(a[1..], b);
    }
  }

  lemma {:induction false} SplitNoDot(n: string)
    requires '.' !in n
    ensures Split(n) == [n]
  {
    if n != [] {
      SplitNoDot(n[1..]);
      assert [n[0]] + n[1..] == n;
    }
  }

  lemma {:induction false} JoinAppend(p: seq<string>, q: seq<string>)
    requires |p| >= 1 && |q| >= 1
    ensures Join(p + q) == Join(p) + "." + Join(q)
  {
    if |p| > 1 {
      JoinAppend(p[1..], q);
      assert (p + q)[1..] == p[1..] + q;
    }
  }

  /**
   * `__adjust_soname`: a name ending in ".so" stays; otherwise the one or
   * two components after the last "so" component are moved in front of
   * ".so", joined by underscores. Fewer than three components fail the
   * script's assertion; a name with no "so" in either place yields None.
   */
  function AdjustSoname(initial: string): (r: Result<Option<string>, BootstrapError>)
    ensures EndsWith(initial, ".so") ==> r == Ok(Some(initial))
    ensures r.Err? <==> !EndsWith(initial, ".so") && |Split(initial)| <= 2
    ensures r.Err? ==> r.error == AssertionFailed(initial)
    ensures r == Ok(None) <==>
      var parts := Split(initial);
      !EndsWith(initial, ".so") && |parts| > 2 && parts[|parts| - 2] != "so" && parts[|parts| - 3] != "so"
  {
    if EndsWith(initial, ".so") then Ok(Some(initial))
    else
      var split := Split(initial);
      var k := |split|;
      if k <= 2 then Err(AssertionFailed(initial))
      else if split[k - 2] == "so" then Ok(Some(Join(split[..k - 2]) + "_" + split[k - 1] + ".so"))
      else if split[k - 3] == "so" then Ok(Some(Join(split[..k - 3]) + "_" + split[k - 2] + "_" + split[k - 1] + ".so"))
      else Ok(None)
  }

  /** A name whose last component has no dot and is not "so" does not end in ".so". */
  lemma NotEndsWithSo(p: string, m: string)
    requires '.' !in m && m != "so"
    ensures !EndsWith(p + "." + m, ".so")
  {
    var s := p + "." + m;
    if |s| >= 3 {
      var tail := s[|s| - 3..];
      if |m| >= 3 {
        assert tail[0] == m[|m| - 3];
      } else if |m| == 2 {
        assert tail[1..] == m;
      } else if |m| == 1 {
        assert tail[1] == '.';
      } else {
        assert tail[2] == '.';
      }
    }
  }

  /** "x.so.N" becomes "x_N.so". */
  lemma OneVersionComponent(x: string, n: string)
    requires '.' !in n && n != "so"
    ensures AdjustSoname(x + ".so." + n) == Ok(Some(x + "_" + n + ".so"))
  {
    var s := x + ".so." + n;
    assert s == (x + ".so") + "." + n;
    NotEndsWithSo(x + ".so", n);
    assert s == x + "." + ("so" + "." + n);
    SplitAppend(x, "so" + "." + n);
    SplitAppend("so", n);
    SplitNoDot("so");
    SplitNoDot(n);
    var split := Split(s);
    assert split == Split(x) + ["so", n];
    assert split[..|split| - 2] == Split(x);
    JoinSplit(x);
  }

  /** "x.so.N.M" becomes "x_N_M.so". */
  lemma TwoVersionComponents(x: string, n: string, m: string)
    requires '.' !in n && '.' !in m && n != "so" && m != "so"
    ensures AdjustSoname(x + ".so." + n + "." + m) == Ok(Some(x + "_" + n + "_" + m + ".so"))
  {
    var s := x + ".so." + n + "." + m;
    assert s == (x + ".so." + n) + "." + m;
    NotEndsWithSo(x + ".so." + n, m);
    assert s == x + "." + ("so" + "." + (n + "." + m));
    SplitAppend(x, "so" + "." + (n + "." + m));
    SplitAppend("so", n + "." + m);
    SplitAppend(n, m);
    SplitNoDot("so");
    SplitNoDot(n);
    SplitNoDot(m);
    var split := Split(s);
    assert split == Split(x) + ["so", n, m];
    assert split[..|split| - 3] == Split(x);
    JoinSplit(x);
  }

  /** A name of exactly the components "so", N and M, with N not "so": the one shape whose adjustment grows. */
  predicate IsBareSoName(initial: string)
  {
    var parts := Split(initial);
    !EndsWith(initial, ".so") && |parts| == 3 && parts[0] == "so" && parts[1] != "so"
  }

  /**
   * An adjusted name has the length of the original, as the byte-for-byte
   * rewrite needs, except for a bare "so.N.M", which gains a character
   * ("so.1.2" becomes "_1_2.so").
   */
  lemma AdjustSonameKeepsLength(initial: string)
    ensures AdjustSoname(initial).Ok? && AdjustSoname(initial).value.Some? ==>
      |AdjustSoname(initial).value.value| == |initial| + (if IsBareSoName(initial) then 1 else 0)
  {
    var split := Split(initial);
    var k := |split|;
    JoinSplit(initial);
    if !EndsWith(initial, ".so") && k > 2 {
      if split[k - 2] == "so" {
        OneVersionLength(split);
      } else if split[k - 3] == "so" {
        TwoVersionsLength(split);
      }
    }
  }

  /** "X.so.N" and "X_N.so" have the same length. */
  lemma OneVersionLength(parts: seq<string>)
    requires |parts| > 2
    ensures var k := |parts|;
      |Join(parts[..k - 2]) + "_" + parts[k - 1] + ".so"| == |Join(parts)| + 2 - |parts[k - 2]|
  {
    var k := |parts|;
    assert parts == parts[..k - 2] + [parts[k - 2], parts[k - 1]];
    JoinAppend(parts[..k - 2], [parts[k - 2], parts[k - 1]]);
  }

  /** "X.so.N.M" and "X_N_M.so" have the same length; a bare "so.N.M" has no "X." to lose. */
  lemma TwoVersionsLength(parts: seq<string>)
    requires |parts| > 2
    ensures var k := |parts|;
      |Join(parts[..k - 3]) + "_" + parts[k - 2] + "_" + parts[k - 1] + ".so"|
        == |Join(parts)| + 2 - |parts[k - 3]| + (if k == 3 then 1 else 0)
  {
    var k := |parts|;
    var last3 := [parts[k - 3], parts[k - 2], parts[k - 1]];
    assert last3[1..] == [parts[k - 2], parts[k - 1]];
    assert Join(last3[1..]) == parts[k - 2] + "." + parts[k - 1];
    assert Join(last3) == parts[k - 3] + "." + (parts[k - 2] + "." + parts[k - 1]);
    if k > 3 {
      assert parts == parts[..k - 3] + last3;
      JoinAppend(parts[..k - 3], last3);
    } else {
      assert parts == last3;
      assert parts[..k - 3] == [];
    }
  }

  /**
   * `bytes.replace`: every occurrence of `pat`, scanning from the left and
   * without overlaps, is replaced by `rep`; an empty `pat` puts `rep`
   * around every element.
   */
  function Replace<T(==)>(s: seq<T>, pat: seq<T>, rep: seq<T>): seq<T>
    decreases |s|
  {
    if pat == [] then (if s == [] then rep else rep + [s[0]] + Replace(s[1..], pat, rep))
    else if |s| < |pat| then s
    else if s[..|pat|] == pat then rep + Replace(s[|pat|..], pat, rep)
    else [s[0]] + Replace(s[1..], pat, rep)
  }

  /** Replacing by something of the same length keeps the length. */
  lemma {:induction false} ReplaceKeepsLength<T>(s: seq<T>, pat: seq<T>, rep: seq<T>)
    requires |pat| == |rep|
    ensures |Replace(s, pat, rep)| == |s|
    decreases |s|
  {
    if pat == [] {
      if s != [] {
        ReplaceKeepsLength(s[1..], pat, rep);
      }
    } else if |s| >= |pat| {
      if s[..|pat|] == pat {
        ReplaceKeepsLength(s[|pat|..], pat, rep);
      } else {
        ReplaceKeepsLength(s[1..], pat, rep);
      }
    }
  }

  /** Replacing a pattern by itself changes nothing. */
  lemma {:induction false} ReplaceBySelf<T>(s: seq<T>, pat: seq<T>)
    ensures Replace(s, pat, pat) == s
    decreases |s|
  {
    if pat == [] {
      if s != [] {
        ReplaceBySelf(s[1..], pat);
        assert [s[0]] + s[1..] == s;
      }
    } else if |s| >= |pat| {
      if s[..|pat|] == pat {
        ReplaceBySelf(s[|pat|..], pat);
        assert s[..|pat|] + s[|pat|..] == s;
      } else {
        ReplaceBySelf(s[1..], pat);
        assert [s[0]] + s[1..] == s;
      }
    }
  }

  /** A soname replacement: the old name and the adjusted one. */
  type Replacement = (string, string)

  /** Every replacement swaps names of equal length. */
  predicate SameLengths(pairs: seq<Replacement>)
  {
    forall i :: 0 <= i < |pairs| ==> |pairs[i].0| == |pairs[i].1|
  }

  /** The contents after applying the replacements one after the other, in list order. */
  function ApplyReplacements(contents: string, pairs: seq<Replacement>): string
    decreases |pairs|
  {
    if pairs == [] then contents
    else ApplyReplacements(Replace(contents, pairs[0].0, pairs[0].1), pairs[1..])
  }

  /** Applying same-length replacements keeps the contents' length. */
  lemma {:induction false} ApplyReplacementsKeepsLength(contents: string, pairs: seq<Replacement>)
    requires SameLengths(pairs)
    ensures |ApplyReplacements(contents, pairs)| == |contents|
    decreases |pairs|
  {
    if pairs != [] {
      assert SameLengths(pairs[1..]) by {
        forall i | 0 <= i < |pairs| - 1
          ensures |pairs[1..][i].0| == |pairs[1..][i].1|
        {
          assert pairs[1..][i] == pairs[i + 1];
        }
      }
      ReplaceKeepsLength(contents, pairs[0].0, pairs[0].1);
      ApplyReplacementsKeepsLength(Replace(contents, pairs[0].0, pairs[0].1), pairs[1..]);
    }
  }

  /** `__replace_soname_values`, with the file's contents as a value. */
  method ReplaceSonameValues(contents: string, pairs: seq<Replacement>) returns (result: string)
    ensures result == ApplyReplacements(contents, pairs)
    ensures SameLengths(pairs) ==> |result| == |contents|
  {
    result := contents;
    var i := 0;
    while i < |pairs|
      invariant 0 <= i <= |pairs|
      invariant ApplyReplacements(result, pairs[i..]) == ApplyReplacements(contents, pairs)
    {
      assert pairs[i..][1..] == pairs[i + 1..];
      result := Replace(result, pairs[i].0, pairs[i].1);
      i := i + 1;
    }
    if SameLengths(pairs) {
      ApplyReplacementsKeepsLength(contents, pairs);
    }
  }

  /**
   * The replacements installing the libraries with these sonames adds, in
   * order: one per soname the adjustment changes.
   */
  function NewReplacements(sonames: seq<string>): Result<seq<Replacement>, BootstrapError>
  {
    if sonames == [] then Ok([])
    else
      match NewReplacements(sonames[..|sonames| - 1])
      case Err(e) => Err(e)
      case Ok(pairs) =>
        var soname := sonames[|sonames| - 1];
        match AdjustSoname(soname)
        case Err(e) => Err(e)
        case Ok(None) => Err(NoAdjustedName(soname))
        case Ok(Some(adjusted)) =>
          Ok(if adjusted != soname then pairs + [(soname, adjusted)] else pairs)
  }

  /** Gathering one more soname: what its adjustment adds, or the error it raises. */
  lemma NewReplacementsStep(sonames: seq<string>, i: nat, pairs: seq<Replacement>)
    requires i < |sonames| && NewReplacements(sonames[..i]) == Ok(pairs)
    ensures AdjustSoname(sonames[i]).Err? ==>
      NewReplacements(sonames[..i + 1]) == Err(AdjustSoname(sonames[i]).error)
    ensures AdjustSoname(sonames[i]) == Ok(None) ==>
      NewReplacements(sonames[..i + 1]) == Err(NoAdjustedName(sonames[i]))
    ensures AdjustSoname(sonames[i]).Ok? && AdjustSoname(sonames[i]).value.Some? ==>
      var adjusted := AdjustSoname(sonames[i]).value.value;
      NewReplacements(sonames[..i + 1]) == Ok(if adjusted != sonames[i] then pairs + [(sonames[i], adjusted)] else pairs)
  {
    assert sonames[..i + 1][..i] == sonames[..i];
  }

  /** Once the names so far make the script fail, later names do not matter. */
  lemma {:induction false} NewReplacementsErrPersists(sonames: seq<string>, i: nat)
    requires i <= |sonames| && NewReplacements(sonames[..i]).Err?
    ensures NewReplacements(sonames) == NewReplacements(sonames[..i])
  {
    if i < |sonames| {
      var init := sonames[..|sonames| - 1];
      assert init[..i] == sonames[..i];
      NewReplacementsErrPersists(init, i);
    } else {
      assert sonames[..i] == sonames;
    }
  }

  /** Every replacement gathered swaps a soname for a different name of the same length. */
  lemma {:induction false} NewReplacementsKeepLength(sonames: seq<string>)
    ensures NewReplacements(sonames).Ok? && (forall i :: 0 <= i < |sonames| ==> !IsBareSoName(sonames[i])) ==>
      SameLengths(NewReplacements(sonames).value)
    ensures NewReplacements(sonames).Ok? ==>
      forall i :: 0 <= i < |NewReplacements(sonames).value| ==>
        NewReplacements(sonames).value[i].0 != NewReplacements(sonames).value[i].1
  {
    if sonames != [] {
      var init := sonames[..|sonames| - 1];
      assert forall i :: 0 <= i < |init| ==> init[i] == sonames[i];
      NewReplacementsKeepLength(init);
      AdjustSonameKeepsLength(sonames[|sonames| - 1]);
    }
  }

  /** The bare name "so.1.2" makes the script's length assertion fail. */
  lemma BareSoNameFailsTheCheck()
    ensures NewReplacements(["so.1.2"]) == Ok([("so.1.2", "_1_2.so")])
    ensures !SameLengths(NewReplacements(["so.1.2"]).value)
  {
    TwoVersionComponentsOfBareSo();
    var names := ["so.1.2"];
    assert names[..|names| - 1] == [];
    assert NewReplacements(names[..|names| - 1]) == Ok([]);
    assert names[|names| - 1] == "so.1.2";
    assert AdjustSoname(names[|names| - 1]) == Ok(Some("_1_2.so"));
    assert "_1_2.so"[0] != "so.1.2"[0];
    var pairs: seq<Replacement> := [];
    assert pairs + [("so.1.2", "_1_2.so")] == [("so.1.2", "_1_2.so")];
    assert NewReplacements(names) == Ok(pairs + [("so.1.2", "_1_2.so")]);
    assert |"_1_2.so"| == 7 && |"so.1.2"| == 6;
    assert |NewReplacements(names).value[0].0| != |NewReplacements(names).value[0].1|;
  }

  lemma TwoVersionComponentsOfBareSo()
    ensures AdjustSoname("so.1.2") == Ok(Some("_1_2.so"))
  {
    BareTwoVersions("1", "2");
    assert "so." + "1" + "." + "2" == "so.1.2";
    assert "_" + "1" + "_" + "2" + ".so" == "_1_2.so";
  }

  /** "so.N.M" is adjusted to "_N_M.so". */
  lemma BareTwoVersions(n: string, m: string)
    requires '.' !in n && '.' !in m && n != "so" && m != "so"
    ensures AdjustSoname("so." + n + "." + m) == Ok(Some("_" + n + "_" + m + ".so"))
  {
    var s := "so." + n + "." + m;
    assert s == ("so." + n) + "." + m;
    NotEndsWithSo("so." + n, m);
    assert s == "so" + "." + (n + "." + m);
    SplitAppend("so", n + "." + m);
    SplitAppend(n, m);
    SplitNoDot("so");
    SplitNoDot(n);
    SplitNoDot(m);
    var split := Split(s);
    assert split == ["so", n, m];
    assert split[|split| - 2] == n && split[|split| - 3] == "so";
    assert Join(split[..0]) + "_" + n + "_" + m + ".so" == "_" + n + "_" + m + ".so";
  }

  /** Architectures the script knows, and the ABI directory of each. */
  function AndroidAbi(arch: string): (r: Result<string, BootstrapError>)
    ensures r.Err? <==> arch !in {"arm64", "armv7", "x86", "x86_64"}
    ensures r.Err? ==> r.error == ArchitectureNotSupported(arch)
  {
    if arch == "arm64" then Ok("arm64-v8a")
    else if arch == "armv7" then Ok("armeabi-v7a")
    else if arch == "x86" then Ok("x86")
    else if arch == "x86_64" then Ok("x86_64")
    else Err(ArchitectureNotSupported(arch))
  }

  /** The architecture an ABI directory belongs to. */
  function ArchOfAbi(abi: string): Option<string>
  {
    if abi == "arm64-v8a" then Some("arm64")
    else if abi == "armeabi-v7a" then Some("armv7")
    else if abi == "x86" then Some("x86")
    else if abi == "x86_64" then Some("x86_64")
    else None
  }

  /** Each supported architecture gets its own ABI directory. */
  lemma AndroidAbiInverse(arch: string)
    ensures AndroidAbi(arch).Ok? ==> ArchOfAbi(AndroidAbi(arch).value) == Some(arch)
  {
  }

  /** What `readelf` reports of one library. */
  datatype ElfInfo = ElfInfo(soname: string, needed: seq<string>)

  /** The names of a list, as a set. */
  function Elements(names: seq<string>): (r: set<string>)
    ensures forall n :: n in r <==> n in names
  {
    set i | 0 <= i < |names| :: names[i]
  }

  function Provided(libs: seq<ElfInfo>): set<string>
  {
    if libs == [] then {} else Provided(libs[..|libs| - 1]) + {libs[|libs| - 1].soname}
  }

  function Needed(base: set<string>, libs: seq<ElfInfo>): set<string>
  {
    if libs == [] then base
    else Needed(base, libs[..|libs| - 1]) + Elements(libs[|libs| - 1].needed)
  }

  /** The libraries provided are the sonames, and the needed ones all that any library lists. */
  lemma {:induction false} ProvidedAndNeeded(base: set<string>, libs: seq<ElfInfo>, name: string)
    ensures name in Provided(libs) <==> exists i :: 0 <= i < |libs| && libs[i].soname == name
    ensures name in Needed(base, libs) <==> name in base || exists i :: 0 <= i < |libs| && name in libs[i].needed
  {
    if libs != [] {
      var init := libs[..|libs| - 1];
      ProvidedAndNeeded(base, init, name);
      assert forall i :: 0 <= i < |init| ==> init[i] == libs[i];
      if exists i :: 0 <= i < |libs| && libs[i].soname == name {
        var i :| 0 <= i < |libs| && libs[i].soname == name;
        if i < |init| {
          assert init[i].soname == name;
        }
      }
      if exists i :: 0 <= i < |libs| && name in libs[i].needed {
        var i :| 0 <= i < |libs| && name in libs[i].needed;
        if i < |init| {
          assert name in init[i].needed;
        }
      }
    }
  }

  /**
   * `__resolve_deps`: the libraries needed (by the base list or by any
   * library) but not provided, and those provided but not needed.
   */
  method ResolveDeps(baseNeeded: set<string>, libs: seq<ElfInfo>) returns (missing: set<string>, unused: set<string>)
    ensures missing == Needed(baseNeeded, libs) - Provided(libs)
    ensures unused == Provided(libs) - Needed(baseNeeded, libs)
  {
    var sonameSet: set<string> := {};
    var neededSet := baseNeeded;
    var i := 0;
    while i < |libs|
      invariant 0 <= i <= |libs|
      invariant sonameSet == Provided(libs[..i])
      invariant neededSet == Needed(baseNeeded, libs[..i])
    {
      assert libs[..i + 1][..i] == libs[..i];
      sonameSet := sonameSet + {libs[i].soname};
      neededSet := neededSet + Elements(libs[i].needed);
      i := i + 1;
    }
    assert libs[..i] == libs;
    missing := neededSet - sonameSet;
    unused := sonameSet - neededSet;
  }

  /**
   * Every needed library is provided or reported missing, every provided
   * one is needed or reported unused, and no library is reported twice.
   */
  lemma ReportCoversAll(baseNeeded: set<string>, libs: seq<ElfInfo>)
    ensures var missing := Needed(baseNeeded, libs) - Provided(libs);
      var unused := Provided(libs) - Needed(baseNeeded, libs);
      && Needed(baseNeeded, libs) <= Provided(libs) + missing
      && Provided(libs) <= Needed(baseNeeded, libs) + unused
      && missing !! unused
      && missing !! Provided(libs)
  {
  }

  lemma SameLengthsConcat(a: seq<Replacement>, b: seq<Replacement>)
    ensures SameLengths(a + b) <==> SameLengths(a) && SameLengths(b)
  {
    if SameLengths(a) && SameLengths(b) {
      forall i | 0 <= i < |a + b|
        ensures |(a + b)[i].0| == |(a + b)[i].1|
      {
        if i >= |a| {
          assert (a + b)[i] == b[i - |a|];
        }
      }
    }
    if SameLengths(a + b) {
      forall i | 0 <= i < |a|
        ensures |a[i].0| == |a[i].1|
      {
        assert (a + b)[i] == a[i];
      }
      forall i | 0 <= i < |b|
        ensures |b[i].0| == |b[i].1|
      {
        assert (a + b)[|a| + i] == b[i];
      }
    }
  }

  /** The check after `__copy_libs`'s first loop: the first pair whose names differ in length, if any. */
  method FindLengthMismatch(pairs: seq<Replacement>) returns (bad: Option<Replacement>)
    ensures bad.None? <==> SameLengths(pairs)
    ensures bad.Some? ==> bad.value in pairs && |bad.value.0| != |bad.value.1|
    ensures bad.Some? ==> exists k :: 0 <= k < |pairs| && pairs[k] == bad.value && SameLengths(pairs[..k])
  {
    var j := 0;
    while j < |pairs|
      invariant 0 <= j <= |pairs|
      invariant SameLengths(pairs[..j])
    {
      var pair := pairs[j];
      if |pair.0| != |pair.1| {
        assert pairs[j] == pair && SameLengths(pairs[..j]);
        return Some(pair);
      }
      assert pairs[..j + 1] == pairs[..j] + [pair];
      j := j + 1;
    }
    assert pairs[..j] == pairs;
    return None;
  }

  /**
   * The replacements the installer starts with: one for a soname that the
   * packaged library does not carry, one for the name the injected bundle
   * needs.
   */
  const InitialReplacements: seq<Replacement> :=
    [("libnettle.so.6", "libnettle_6.so"), ("libWPEWebKit-1.0.so.3", "libWPEWebKit-1.0_3.so")]

  /** The library every installation needs, whoever else needs it. */
  const BaseNeeded: set<string> := {"libWPEWebKit-1.0_3.so"}

  /**
   * The loop of `__copy_libs` over the libraries: each soname is adjusted,
   * and the pairs whose name changes are gathered in order, alongside the
   * name each library is installed under.
   */
  method AdjustSonames(sonames: seq<string>) returns (r: Result<(seq<Replacement>, seq<string>), BootstrapError>)
    ensures r.Err? <==> NewReplacements(sonames).Err?
    ensures r.Err? ==> r.error == NewReplacements(sonames).error
    ensures r.Ok? ==>
      && r.value.0 == NewReplacements(sonames).value
      && |r.value.1| == |sonames|
      && forall i :: 0 <= i < |sonames| ==> AdjustSoname(sonames[i]) == Ok(Some(r.value.1[i]))
  {
    var added: seq<Replacement> := [];
    var installedNames: seq<string> := [];
    var i := 0;
    while i < |sonames|
      invariant 0 <= i <= |sonames|
      invariant NewReplacements(sonames[..i]) == Ok(added)
      invariant |installedNames| == i
      invariant forall k :: 0 <= k < i ==> AdjustSoname(sonames[k]) == Ok(Some(installedNames[k]))
    {
      NewReplacementsStep(sonames, i, added);
      var soname := sonames[i];
      var adjusted := AdjustSoname(soname);
      if adjusted.Err? {
        NewReplacementsErrPersists(sonames, i + 1);
        return Err(adjusted.error);
      }
      if adjusted.value.None? {
        NewReplacementsErrPersists(sonames, i + 1);
        return Err(NoAdjustedName(soname));
      }
      var name := adjusted.value.value;
      if name != soname {
        added := added + [(soname, name)];
      }
      installedNames := installedNames + [name];
      i := i + 1;
    }
    assert sonames[..i] == sonames;
    return Ok((added, installedNames));
  }

  /** The installer's state: the replacements gathered so far, kept across calls. */
  class Installer {
    var sonameReplacements: seq<Replacement>

    predicate Valid()
      reads this
    {
      SameLengths(sonameReplacements)
    }

    /** The initial replacements keep their lengths, as the later assertion demands. */
    constructor ()
      ensures Valid() && sonameReplacements == InitialReplacements
    {
      sonameReplacements := InitialReplacements;
    }

    /**
     * The name bookkeeping of `__copy_libs`: each library's adjusted
     * soname is computed, and recorded as a replacement when it differs;
     * then every recorded replacement must keep the length, or the
     * script's assertion fails. The names the libraries are installed
     * under are returned. On an exception the replacements recorded before
     * it are dropped.
     */
    method RecordReplacements(sonames: seq<string>) returns (r: Result<seq<string>, BootstrapError>)
      requires Valid()
      modifies this
      ensures Valid()
      ensures NewReplacements(sonames).Err? ==>
        r == Err(NewReplacements(sonames).error) && sonameReplacements == old(sonameReplacements)
      ensures NewReplacements(sonames).Ok? && !SameLengths(NewReplacements(sonames).value) ==>
        r.Err? && r.error.AssertionFailed? && sonameReplacements == old(sonameReplacements)
      ensures NewReplacements(sonames).Ok? && SameLengths(NewReplacements(sonames).value) ==>
        && r.Ok? && |r.value| == |sonames|
        && (forall i :: 0 <= i < |sonames| ==> AdjustSoname(sonames[i]) == Ok(Some(r.value[i])))
        && sonameReplacements == old(sonameReplacements) + NewReplacements(sonames).value
    {
      var gathered := AdjustSonames(sonames);
      if gathered.Err? {
        return Err(gathered.error);
      }
      var (added, installedNames) := gathered.value;
      var all := sonameReplacements + added;
      SameLengthsConcat(sonameReplacements, added);
      var bad := FindLengthMismatch(all);
      if bad.Some? {
        return Err(AssertionFailed(bad.value.0));
      }
      sonameReplacements := all;
      return Ok(installedNames);
    }
  }
}
