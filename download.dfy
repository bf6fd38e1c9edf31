/**
 * The command-line handling and platform lookup of pyomo.common.download's
 * `FileDownloader`: `parse_args` edits the argument list in place and sets the
 * `insecure`, `cacert` and `fname` fields; `get_sysinfo` normalises the platform
 * name; `get_url` looks the platform up in a url map.
 *
 * `platform.system()` and `sys.maxsize` are parameters. Python's `str.lower` is
 * modelled on ASCII letters only.
 */
module Download {
  import opened Wrappers

  /** A Python list of command-line tokens, which `parse_args` edits in place. */
  class ArgList {
    var tokens: seq<string>

    constructor (tokens: seq<string>)
      ensures this.tokens == tokens
    {
      this.tokens := tokens;
    }
  }

  /** The exception `parse_args` raises. */
  datatype ArgError =
    | MissingCacertValue                        // IndexError: `--cacert` is the last token
    | UnrecognizedArguments(rest: seq<string>)  // RuntimeError: tokens left after the file name

  const Insecure := "--insecure"
  const Cacert := "--cacert"

  /** `list.index(x)`: the position of the first occurrence of `x`. */
  function FirstIndex(s: seq<string>, x: string): (i: nat)
    requires x in s
    ensures i < |s| && s[i] == x && forall j :: 0 <= j < i ==> s[j] != x
  {
    IndexFrom(s, x, 0)
  }

  function IndexFrom(s: seq<string>, x: string, k: nat): (i: nat)
    requires k <= |s| && exists j :: k <= j < |s| && s[j] == x
    ensures k <= i < |s| && s[i] == x && forall j :: k <= j < i ==> s[j] != x
    decreases |s| - k
  {
    if s[k] == x then k else IndexFrom(s, x, k + 1)
  }

  /** `list.remove(x)`: exactly one occurrence of `x`, the first, is dropped. */
  function RemoveFirst(s: seq<string>, x: string): (r: seq<string>)
    requires x in s
    ensures |r| == |s| - 1
    ensures multiset(r) == multiset(s) - multiset{x}
  {
    var i := FirstIndex(s, x);
    assert s == s[..i] + [s[i]] + s[i + 1..];
    s[..i] + s[i + 1..]
  }

  /** The state `parse_args` leaves behind: the edited list, the three fields and the exception raised, if any. */
  datatype ParseOutcome = ParseOutcome(argv: seq<string>, insecure: bool, cacert: Option<string>,
                                       fname: Option<string>, error: Option<ArgError>)

  /** The list after the `--insecure` step. */
  function AfterInsecure(argv: seq<string>): seq<string>
  {
    if Insecure in argv then RemoveFirst(argv, Insecure) else argv
  }

  /** What `parse_args` has after the `--cacert` step: the rest of the list and the certificate. */
  datatype CacertStage = CacertStage(rest: seq<string>, cacert: Option<string>)

  /**
   * The `--cacert` step: the token after the first `--cacert` becomes the
   * certificate and both leave the list. When `--cacert` is the last token, the
   * first `pop` has removed it and the second raises; the error carries the list
   * as it is left.
   */
  function TakeCacert(a: seq<string>, cacert: Option<string>): Result<CacertStage, seq<string>>
  {
    if Cacert !in a then Ok(CacertStage(a, cacert))
    else
      var i := FirstIndex(a, Cacert);
      if i == |a| - 1 then Err(a[..i]) else Ok(CacertStage(a[..i] + a[i + 2..], Some(a[i + 1])))
  }

  /** The two `pop`s at the first `--cacert` carry out the `--cacert` step. */
  lemma TakeCacertPops(a: seq<string>, cacert: Option<string>)
    requires Cacert in a
    ensures var i := FirstIndex(a, Cacert);
            var b := a[..i] + a[i + 1..];
            (i >= |b| ==> TakeCacert(a, cacert) == Err(b)) &&
            (i < |b| ==> TakeCacert(a, cacert) == Ok(CacertStage(b[..i] + b[i + 1..], Some(b[i]))))
  {
    var i := FirstIndex(a, Cacert);
    var b := a[..i] + a[i + 1..];
    if i < |b| {
      assert b[i] == a[i + 1];
      assert b[..i] == a[..i];
      assert b[i + 1..] == a[i + 2..];
    } else {
      assert b == a[..i];
    }
  }

  /** `parse_args` on `argv` with the fields `insecure`, `cacert` and `fname` as they were. */
  function ParseArgsOf(argv: seq<string>, insecure: bool, cacert: Option<string>, fname: Option<string>): ParseOutcome
  {
    var ins := insecure || Insecure in argv;
    match TakeCacert(AfterInsecure(argv), cacert)
    case Err(left) => ParseOutcome(left, ins, cacert, fname, Some(MissingCacertValue))
    case Ok(stage) =>
      if stage.rest == [] then ParseOutcome([], ins, stage.cacert, None, None)
      else ParseOutcome(stage.rest[1..], ins, stage.cacert, Some(stage.rest[0]),
                        if |stage.rest| > 1 then Some(UnrecognizedArguments(stage.rest[1..])) else None)
  }

  /** Once the `--cacert` step succeeds, the first remaining token is the file name and any other is an error. */
  lemma ParseArgsAfterCacert(argv: seq<string>, insecure: bool, cacert: Option<string>, fname: Option<string>,
                             rest: seq<string>, ca: Option<string>)
    requires TakeCacert(AfterInsecure(argv), cacert) == Ok(CacertStage(rest, ca))
    ensures var out := ParseArgsOf(argv, insecure, cacert, fname);
            out.insecure == (insecure || Insecure in argv) && out.cacert == ca &&
            out.fname == (if rest == [] then None else Some(rest[0])) &&
            out.argv == (if rest == [] then [] else rest[1..]) &&
            out.error == (if |rest| > 1 then Some(UnrecognizedArguments(rest[1..])) else None)
  {
  }

  /** The tokens a caller writes for the given options: the inverse of `parse_args`. */
  function Render(insecure: bool, cacert: Option<string>, fname: Option<string>): seq<string>
  {
    (if insecure then [Insecure] else []) +
    (if cacert.Some? then [Cacert, cacert.value] else []) +
    (if fname.Some? then [fname.value] else [])
  }

  /** A value that `parse_args` reads as an option of its own. */
  predicate IsOptionToken(s: string)
  {
    s == Insecure || s == Cacert
  }

  class FileDownloader {
    var insecure: bool
    var cacert: Option<string>
    var fname: Option<string>

    constructor (insecure: bool, cacert: Option<string>)
      ensures this.insecure == insecure && this.cacert == cacert && fname.None?
    {
      this.insecure := insecure;
      this.cacert := cacert;
      fname := None;
    }

    /** parse_args: read `--insecure`, `--cacert X` and one file name out of `argv`, removing what it reads. */
    method ParseArgs(argv: ArgList) returns (error: Option<ArgError>)
      modifies this, argv
      ensures var out := ParseArgsOf(old(argv.tokens), old(insecure), old(cacert), old(fname));
              argv.tokens == out.argv && insecure == out.insecure && cacert == out.cacert &&
              fname == out.fname && error == out.error
    {
      var tokens := argv.tokens;
      if tokens != [] && Insecure in tokens {
        insecure := true;
        tokens := RemoveFirst(tokens, Insecure);
      }
      assert tokens == AfterInsecure(old(argv.tokens));
      if tokens != [] && Cacert in tokens {
        var i := FirstIndex(tokens, Cacert);
        TakeCacertPops(tokens, cacert);
        tokens := tokens[..i] + tokens[i + 1..];
        if i >= |tokens| {
          argv.tokens := tokens;
          return Some(MissingCacertValue);
        }
        cacert := Some(tokens[i]);
        tokens := tokens[..i] + tokens[i + 1..];
      }
      ParseArgsAfterCacert(old(argv.tokens), old(insecure), old(cacert), old(fname), tokens, cacert);
      if tokens != [] {
        fname := Some(tokens[0]);
        tokens := tokens[1..];
      } else {
        fname := None;
      }
      argv.tokens := tokens;
      if tokens != [] {
        return Some(UnrecognizedArguments(tokens));
      }
      return None;
    }

    /**
     * get_sysinfo: the lower-cased platform name cut at its first `.`, `-` or `_`,
     * and the address width.
     */
    method GetSysinfo(platformSystem: string, maxsize: int) returns (system: string, bits: int)
      ensures system == SystemName(platformSystem)
      ensures IsPrefix(system, Lower(platformSystem)) && NoSeparator(system)
      ensures bits == (if maxsize > 0x1_0000_0000 then 64 else 32)
    {
      system := Lower(platformSystem);
      var seps := ".-_";
      for k := 0 to |seps|
        invariant system == CutAt(Lower(platformSystem), seps[..k])
      {
        CutAtStep(Lower(platformSystem), seps[..k], seps[k]);
        assert seps[..k + 1] == seps[..k] + [seps[k]];
        system := SplitHead(system, seps[k]);
      }
      assert seps[..|seps|] == seps;
      SystemNameShape(platformSystem);
      bits := if maxsize > 0x1_0000_0000 then 64 else 32;
    }

    /** get_url: the url for this platform, or the RuntimeError when the map has none. */
    method GetUrl(urlmap: map<string, string>, platformSystem: string, maxsize: int) returns (r: Result<string, string>)
      ensures r.Ok? <==> SystemName(platformSystem) in urlmap
      ensures r.Ok? ==> r.value == urlmap[SystemName(platformSystem)]
    {
      var system, bits := GetSysinfo(platformSystem, maxsize);
      if system !in urlmap {
        return Err("ERROR: cannot infer the correct url for platform");
      }
      return Ok(urlmap[system]);
    }
  }

  /** ASCII lower-casing, as `str.lower` does on ASCII text. */
  function LowerChar(c: char): char
  {
    if 'A' <= c <= 'Z' then (c as int - 'A' as int + 'a' as int) as char else c
  }

  function Lower(s: string): (r: string)
    ensures |r| == |s| && forall i :: 0 <= i < |s| ==> r[i] == LowerChar(s[i])
  {
    seq(|s|, i requires 0 <= i < |s| => LowerChar(s[i]))
  }

  /** `s.split(c)[0]`: everything before the first `c`, or all of `s`. */
  function SplitHead(s: string, c: char): (r: string)
    ensures IsPrefix(r, s) && c !in r
    ensures |r| < |s| ==> s[|r|] == c
  {
    if s == [] || s[0] == c then [] else [s[0]] + SplitHead(s[1..], c)
  }

  /** The result of cutting `s` at each separator of `seps` in turn. */
  function CutAt(s: string, seps: string): string
    decreases |seps|
  {
    if seps == [] then s else SplitHead(CutAt(s, seps[..|seps| - 1]), seps[|seps| - 1])
  }

  predicate IsPrefix(p: string, s: string)
  {
    |p| <= |s| && p == s[..|p|]
  }

  predicate NoSeparator(s: string)
  {
    '.' !in s && '-' !in s && '_' !in s
  }

  predicate IsSeparator(c: char)
  {
    c == '.' || c == '-' || c == '_'
  }

  /** The longest prefix of `s` without a separator: an independent reading of the three cuts. */
  function BeforeSeparator(s: string): (r: string)
    ensures IsPrefix(r, s) && NoSeparator(r)
    ensures |r| < |s| ==> IsSeparator(s[|r|])
  {
    if s == [] || IsSeparator(s[0]) then [] else [s[0]] + BeforeSeparator(s[1..])
  }

  /** The platform name `get_sysinfo` reports. */
  function SystemName(platformSystem: string): string
  {
    CutAt(Lower(platformSystem), ".-_")
  }

  lemma CutAtStep(s: string, seps: string, c: char)
    ensures CutAt(s, seps + [c]) == SplitHead(CutAt(s, seps), c)
  {
    assert (seps + [c])[..|seps + [c]| - 1] == seps;
  }

  lemma PrefixTrans(a: string, b: string, c: string)
    requires IsPrefix(a, b) && IsPrefix(b, c)
    ensures IsPrefix(a, c)
  {
    assert c[..|b|][..|a|] == c[..|a|];
  }

  /**
   * The three cuts in turn give the longest separator-free prefix of the
   * lower-cased name, whatever the order the separators are tried in.
   */
  lemma SystemNameShape(platformSystem: string)
    ensures SystemName(platformSystem) == BeforeSeparator(Lower(platformSystem))
    ensures IsPrefix(SystemName(platformSystem), Lower(platformSystem)) && NoSeparator(SystemName(platformSystem))
  {
    var s := Lower(platformSystem);
    var s1 := SplitHead(s, '.');
    var s2 := SplitHead(s1, '-');
    var s3 := SplitHead(s2, '_');
    assert ".-_"[..2] == ".-" && ".-"[..1] == "." && "."[..0] == "";
    assert SystemName(platformSystem) == s3;
    PrefixTrans(s3, s2, s1);
    PrefixTrans(s3, s1, s);
    assert '.' !in s3 && '-' !in s3 by {
      assert s3 == s2[..|s3|] && s2 == s1[..|s2|];
    }
    CutsAreLongestPrefix(s, s1, s2, s3);
  }

  lemma CutsAreLongestPrefix(s: string, s1: string, s2: string, s3: string)
    requires s1 == SplitHead(s, '.') && s2 == SplitHead(s1, '-') && s3 == SplitHead(s2, '_')
    requires IsPrefix(s3, s) && NoSeparator(s3)
    ensures s3 == BeforeSeparator(s)
  {
    var b := BeforeSeparator(s);
    // s3 stops at a separator of s, or at the end of s.
    assert |s3| < |s| ==> IsSeparator(s[|s3|]) by {
      if |s3| < |s| {
        if |s3| < |s2| {
          assert s2[|s3|] == '_' && s2 == s1[..|s2|] && s1 == s[..|s1|];
        } else if |s2| < |s1| {
          assert s1[|s2|] == '-' && s1 == s[..|s1|];
          assert s[|s3|] == s1[|s2|];
        } else {
          assert |s1| < |s| && s[|s1|] == '.';
        }
      }
    }
    LongestPrefixUnique(s, s3, b);
  }

  /** Two separator-free prefixes that each stop at a separator or at the end are equal. */
  lemma LongestPrefixUnique(s: string, p: string, q: string)
    requires IsPrefix(p, s) && NoSeparator(p) && (|p| < |s| ==> IsSeparator(s[|p|]))
    requires IsPrefix(q, s) && NoSeparator(q) && (|q| < |s| ==> IsSeparator(s[|q|]))
    ensures p == q
  {
  }

  /** Normalising a name that is already normal leaves it unchanged. */
  lemma SystemNameIdempotent(platformSystem: string)
    ensures SystemName(SystemName(platformSystem)) == SystemName(platformSystem)
  {
    var n := SystemName(platformSystem);
    SystemNameShape(platformSystem);
    SystemNameShape(n);
    LowerOfLower(Lower(platformSystem), n);
    LongestPrefixUnique(n, BeforeSeparator(n), n);
  }

  lemma LowerOfLower(s: string, p: string)
    requires IsPrefix(p, Lower(s))
    ensures Lower(p) == p
  {
    forall i | 0 <= i < |p| ensures Lower(p)[i] == p[i] {
      assert p[i] == LowerChar(s[i]);
    }
  }

  /** The `--insecure` flag ends up set exactly when it was set before or the list held `--insecure`. */
  lemma ParseArgsInsecure(argv: seq<string>, insecure: bool, cacert: Option<string>, fname: Option<string>)
    ensures ParseArgsOf(argv, insecure, cacert, fname).insecure <==> insecure || Insecure in argv
  {
  }

  /**
   * The `--cacert` step raises exactly when the only `--cacert` left is the last
   * token; otherwise the certificate is the token after the first `--cacert`, or
   * is unchanged when there is none.
   */
  lemma TakeCacertOutcome(a: seq<string>, cacert: Option<string>)
    ensures TakeCacert(a, cacert).Err? <==> a != [] && a[|a| - 1] == Cacert && Cacert !in a[..|a| - 1]
    ensures TakeCacert(a, cacert).Err? ==> TakeCacert(a, cacert).error == a[..|a| - 1]
    ensures TakeCacert(a, cacert).Ok? && Cacert in a ==> TakeCacert(a, cacert).value.cacert == Some(a[FirstIndex(a, Cacert) + 1])
    ensures Cacert !in a ==> TakeCacert(a, cacert) == Ok(CacertStage(a, cacert))
  {
    if Cacert in a {
      var i := FirstIndex(a, Cacert);
      if i == |a| - 1 {
        assert forall j :: 0 <= j < |a| - 1 ==> a[..|a| - 1][j] == a[j];
      } else if a[|a| - 1] == Cacert {
        assert a[..|a| - 1][i] == Cacert;
      }
    }
  }

  /** A failed `--cacert` step leaves `cacert` and `fname` as they were. */
  lemma ParseArgsMissingCacert(argv: seq<string>, insecure: bool, cacert: Option<string>, fname: Option<string>)
    ensures var out := ParseArgsOf(argv, insecure, cacert, fname);
            out.error == Some(MissingCacertValue) ==> out.cacert == cacert && out.fname == fname
  {
  }

  /** Every run that does not raise leaves the list empty. */
  lemma ParseArgsConsumes(argv: seq<string>, insecure: bool, cacert: Option<string>, fname: Option<string>)
    ensures var out := ParseArgsOf(argv, insecure, cacert, fname);
            out.error.None? ==> out.argv == []
    ensures var out := ParseArgsOf(argv, insecure, cacert, fname);
            out.error.Some? && out.error.value.UnrecognizedArguments? ==> out.argv == out.error.value.rest != []
  {
  }

  /** Parsing the tokens written for a set of options gives those options back, and raises nothing. */
  lemma ParseArgsRender(insecure: bool, cacert: Option<string>, fname: Option<string>,
                        oldInsecure: bool, oldCacert: Option<string>, oldFname: Option<string>)
    requires cacert.Some? ==> !IsOptionToken(cacert.value)
    requires fname.Some? ==> !IsOptionToken(fname.value)
    ensures var out := ParseArgsOf(Render(insecure, cacert, fname), oldInsecure, oldCacert, oldFname);
            out == ParseOutcome([], insecure || oldInsecure, if cacert.Some? then cacert else oldCacert, fname, None)
  {
    AfterInsecureRender(insecure, cacert, fname);
    TakeCacertRender(cacert, fname, oldCacert);
  }

  lemma AfterInsecureRender(insecure: bool, cacert: Option<string>, fname: Option<string>)
    requires cacert.Some? ==> !IsOptionToken(cacert.value)
    requires fname.Some? ==> !IsOptionToken(fname.value)
    ensures Insecure in Render(insecure, cacert, fname) <==> insecure
    ensures AfterInsecure(Render(insecure, cacert, fname)) == Render(false, cacert, fname)
  {
    var tail := Render(false, cacert, fname);
    assert Insecure !in tail;
    if insecure {
      assert Render(insecure, cacert, fname) == [Insecure] + tail;
      assert FirstIndex([Insecure] + tail, Insecure) == 0;
    }
  }

  lemma TakeCacertRender(cacert: Option<string>, fname: Option<string>, oldCacert: Option<string>)
    requires cacert.Some? ==> !IsOptionToken(cacert.value)
    requires fname.Some? ==> !IsOptionToken(fname.value)
    ensures TakeCacert(Render(false, cacert, fname), oldCacert) ==
              Ok(CacertStage(if fname.Some? then [fname.value] else [], if cacert.Some? then cacert else oldCacert))
  {
    var names := if fname.Some? then [fname.value] else [];
    assert Cacert !in names;
    if cacert.Some? {
      var a := [Cacert, cacert.value] + names;
      assert Render(false, cacert, fname) == a;
      assert FirstIndex(a, Cacert) == 0;
      assert a[..0] + a[2..] == names;
    } else {
      assert Render(false, cacert, fname) == names;
    }
  }
}
