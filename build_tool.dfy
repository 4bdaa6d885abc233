/** The argument validators and output naming of the PBO build tool (a3bt.py). Each
    validator is an argparse `type=` callback: it returns its argument or raises
    ValueError, modelled as a Result. */
module BuildTool {
  import opened Wrappers
  import PosixPath

  datatype ArgError = ValueError(message: string)

  /** ARMA3_MAP_TYPES. */
  const MapTypes: seq<string> := ["Altis", "Stratis", "Tanoa"]

  function LowerChar(c: char): char {
    if 'A' <= c <= 'Z' then (c as int + 32) as char else c
  }

  /** `s.lower()` on ASCII letters. */
  function Lower(s: string): (r: string)
    ensures |r| == |s| && forall i :: 0 <= i < |s| ==> r[i] == LowerChar(s[i])
  {
    seq(|s|, i requires 0 <= i < |s| => LowerChar(s[i]))
  }

  /** `s.endswith(suffix)`. */
  predicate EndsWith(s: string, suffix: string) {
    |suffix| <= |s| && s[|s| - |suffix|..] == suffix
  }

  /** The four-character extension test both file validators make, written character
      by character: a dot and then the three letters in either case. */
  predicate HasExtension(name: string, lower: string, upper: string)
    requires |lower| == 3 && |upper| == 3
  {
    |name| >= 4 && name[|name| - 4] == '.' &&
    (name[|name| - 3] == lower[0] || name[|name| - 3] == upper[0]) &&
    (name[|name| - 2] == lower[1] || name[|name| - 2] == upper[1]) &&
    (name[|name| - 1] == lower[2] || name[|name| - 1] == upper[2])
  }

  lemma LowerEndsWith(name: string, lower: string, upper: string)
    requires |lower| == 3 && |upper| == 3
    requires forall k :: 0 <= k < 3 ==> 'a' <= lower[k] <= 'z' && upper[k] as int == lower[k] as int - 32
    ensures EndsWith(Lower(name), "." + lower) <==> HasExtension(name, lower, upper)
  {
    var l := Lower(name);
    var n := |name|;
    if |name| >= 4 {
      if EndsWith(l, "." + lower) {
        assert l[n - 4] == '.' && l[n - 3] == lower[0] && l[n - 2] == lower[1] && l[n - 1] == lower[2];
      }
      if HasExtension(name, lower, upper) {
        assert l[n - 4..] == "." + lower;
      }
    }
  }

  /** pbo_filename: accepts exactly the names ending in `.pbo` in any case, unchanged. */
  function PboFilename(name: string): (r: Result<string, ArgError>)
    ensures r.Success? <==> HasExtension(name, "pbo", "PBO")
    ensures r.Success? ==> r.value == name
    ensures r.Failure? ==> r.error == ValueError(name + " is not a .pbo file")
  {
    LowerEndsWith(name, "pbo", "PBO");
    if !EndsWith(Lower(name), ".pbo") then Failure(ValueError(name + " is not a .pbo file"))
    else Success(name)
  }

  /** sqm_filename: accepts exactly the names ending in `.sqm` in any case, unchanged. */
  function SqmFilename(name: string): (r: Result<string, ArgError>)
    ensures r.Success? <==> HasExtension(name, "sqm", "SQM")
    ensures r.Success? ==> r.value == name
    ensures r.Failure? ==> r.error == ValueError(name + " is not a .sqm file")
  {
    LowerEndsWith(name, "sqm", "SQM");
    if !EndsWith(Lower(name), ".sqm") then Failure(ValueError(name + " is not a .sqm file"))
    else Success(name)
  }

  /** `', '.join(xs)`. */
  function JoinWith(xs: seq<string>, sep: string): string {
    if |xs| == 0 then ""
    else if |xs| == 1 then xs[0]
    else xs[0] + sep + JoinWith(xs[1..], sep)
  }

  /** `' or '.join([', '.join(names[:-1]), names[-1]])`: the help text for map names. */
  function OrList(names: seq<string>): (r: string)
    requires |names| > 0
    ensures EndsWith(r, " or " + names[|names| - 1])
    ensures |names| == 1 ==> r == " or " + names[0]
  {
    JoinWith(names[..|names| - 1], ", ") + " or " + names[|names| - 1]
  }

  /** The first field of map_type's message formats the function object itself; the
      model renders that field as this fixed placeholder. */
  const MapTypeFunctionRepr: string := "<function map_type>"

  /** map_type: accepts exactly the three map names, compared case-sensitively, unchanged. */
  function MapType(name: string): (r: Result<string, ArgError>)
    ensures r.Success? <==> name == "Altis" || name == "Stratis" || name == "Tanoa"
    ensures r.Success? ==> r.value == name
  {
    if name !in MapTypes then
      Failure(ValueError(MapTypeFunctionRepr + " does not appear to be an Arma 3 mod (doesn't end in "
                         + OrList(MapTypes) + ")."))
    else Success(name)
  }

  /** Applying any validator to its own result changes nothing. */
  lemma ValidatorsIdempotent(name: string)
    ensures PboFilename(name).Success? ==> PboFilename(PboFilename(name).value) == PboFilename(name)
    ensures SqmFilename(name).Success? ==> SqmFilename(SqmFilename(name).value) == SqmFilename(name)
    ensures MapType(name).Success? ==> MapType(MapType(name).value) == MapType(name)
  {
  }

  /** The map names render as the help text shows them. */
  lemma MapTypesHelpText()
    ensures OrList(MapTypes) == "Altis, Stratis or Tanoa"
  {
    assert MapTypes[..2] == ["Altis", "Stratis"];
    assert JoinWith(["Altis", "Stratis"], ", ") == "Altis" + ", " + JoinWith(["Stratis"], ", ");
  }

  /** Where the `i`th entry of `xs` stands in `JoinWith(xs, sep)`. */
  lemma {:induction false} JoinPosition(xs: seq<string>, sep: string, i: nat) returns (k: nat)
    requires i < |xs|
    ensures k + |xs[i]| <= |JoinWith(xs, sep)| && JoinWith(xs, sep)[k..k + |xs[i]|] == xs[i]
  {
    if |xs| == 1 {
      k := 0;
    } else if i == 0 {
      k := 0;
      assert JoinWith(xs, sep) == xs[0] + (sep + JoinWith(xs[1..], sep));
    } else {
      var k' := JoinPosition(xs[1..], sep, i - 1);
      k := |xs[0]| + |sep| + k';
      var rest := JoinWith(xs[1..], sep);
      assert JoinWith(xs, sep) == (xs[0] + sep) + rest;
      assert JoinWith(xs, sep)[k..k + |xs[i]|] == rest[k'..k' + |xs[i]|];
    }
  }

  /** Every name appears, whole, in the rendered list. */
  lemma OrListMentionsEach(names: seq<string>, i: nat) returns (k: nat)
    requires i < |names|
    ensures k + |names[i]| <= |OrList(names)| && OrList(names)[k..k + |names[i]|] == names[i]
  {
    var init := names[..|names| - 1];
    var left := JoinWith(init, ", ");
    if i == |names| - 1 {
      k := |left| + 4;
      assert OrList(names) == (left + " or ") + names[i];
    } else {
      assert names[i] == init[i];
      k := JoinPosition(init, ", ", i);
      assert OrList(names) == left + (" or " + names[|names| - 1]);
    }
  }

  /** `path.rstrip('/')`. */
  function StripTrailingSlashes(path: string): (r: string)
    ensures |r| <= |path| && r == path[..|r|]
    ensures r == [] || r[|r| - 1] != '/'
    ensures forall i :: |r| <= i < |path| ==> path[i] == '/'
  {
    if |path| > 0 && path[|path| - 1] == '/' then StripTrailingSlashes(path[..|path| - 1]) else path
  }

  /** The stripped path, followed by as many slashes as were removed, is the input. */
  lemma StripTrailingSlashesRestores(path: string)
    ensures var r := StripTrailingSlashes(path);
      path == r + seq(|path| - |r|, _ => '/')
    ensures StripTrailingSlashes(StripTrailingSlashes(path)) == StripTrailingSlashes(path)
  {
    var r := StripTrailingSlashes(path);
    assert path == r + path[|r|..];
  }

  /** mod_directory: strip trailing slashes, then require an existing directory. The
      message is the source's unformatted template. */
  function ModDirectory(relativePath: string, exists_: string -> bool): (r: Result<string, ArgError>)
    ensures r.Success? <==> exists_(StripTrailingSlashes(relativePath))
    ensures r.Success? ==> r.value == StripTrailingSlashes(relativePath) && relativePath[..|r.value|] == r.value
  {
    var path := StripTrailingSlashes(relativePath);
    if !exists_(path) then Failure(ValueError("%s is not a valid directory.")) else Success(path)
  }

  /** `'%s' % x` for an optional string argument: an omitted one prints as `None`. */
  function PyStr(x: Option<string>): string {
    if x.Some? then x.value else "None"
  }

  /** The base name of the packed mod: `'%s.%s' % (base_name, map_type)`. Both options are
      optional on the command line, so either may be None. */
  function PboBaseName(baseName: Option<string>, mapType: Option<string>): (r: string)
    ensures |r| == |PyStr(baseName)| + 1 + |PyStr(mapType)|
    ensures r[..|PyStr(baseName)|] == PyStr(baseName) && r[|PyStr(baseName)|] == '.'
    ensures r[|PyStr(baseName)| + 1..] == PyStr(mapType)
  {
    var r := PyStr(baseName) + "." + PyStr(mapType);
    assert r == PyStr(baseName) + ("." + PyStr(mapType));
    r
  }

  /** With neither option given the base name is `None.None`. */
  lemma OmittedNamesBaseName()
    ensures PboBaseName(None, None) == "None.None"
  {
  }

  /** The text after the last dot, or the whole text when there is none. */
  function AfterLastDot(s: string): (r: string)
    ensures |r| <= |s| && r == s[|s| - |r|..] && '.' !in r
  {
    if s == [] || s[|s| - 1] == '.' then []
    else AfterLastDot(s[..|s| - 1]) + [s[|s| - 1]]
  }

  /** The map type can be read back from the base name, whatever the base name holds. */
  lemma {:induction false} MapTypeFromBaseName(baseName: Option<string>, mapType: Option<string>)
    requires mapType.None? || MapType(mapType.value).Success?
    ensures AfterLastDot(PboBaseName(baseName, mapType)) == PyStr(mapType)
    ensures PboBaseName(baseName, mapType)[..|PyStr(baseName)|] == PyStr(baseName)
  {
    var b, m := PyStr(baseName), PyStr(mapType);
    assert '.' !in m by {
      if mapType.None? {
        assert m == "None";
      }
    }
    AfterLastDotOfSuffix(b + ".", m);
    assert PboBaseName(baseName, mapType) == (b + ".") + m;
  }

  lemma {:induction false} AfterLastDotOfSuffix(prefix: string, tail: string)
    requires |prefix| > 0 && prefix[|prefix| - 1] == '.'
    requires '.' !in tail
    ensures AfterLastDot(prefix + tail) == tail
  {
    if tail == [] {
      assert prefix + tail == prefix;
    } else {
      var t := tail[..|tail| - 1];
      assert (prefix + tail)[..|prefix + tail| - 1] == prefix + t;
      AfterLastDotOfSuffix(prefix, t);
    }
  }

  /** Python truthiness of `force_output_pbo_name`. */
  predicate Forced(force: Option<string>) {
    force.Some? && force.value != ""
  }

  /** The PBO path Commands.pack writes: the forced name when one is given, otherwise
      `<build_dir>/<base name>_<timestamp>.pbo`. */
  function OutputPath(buildDir: string, pboBaseName: string, timestamp: string, force: Option<string>): (r: string)
    ensures Forced(force) ==> r == force.value
    ensures !Forced(force) ==> EndsWith(r, pboBaseName + "_" + timestamp + ".pbo")
  {
    if Forced(force) then force.value
    else PosixPath.Join(buildDir, pboBaseName + "_" + timestamp + ".pbo")
  }

  /** The output is always a `.pbo` path: a forced name has passed pbo_filename, and the
      default one ends in the file name built from the base name and timestamp. */
  lemma OutputPathIsPbo(buildDir: string, pboBaseName: string, timestamp: string, force: Option<string>)
    requires force.Some? ==> PboFilename(force.value).Success?
    ensures PboFilename(OutputPath(buildDir, pboBaseName, timestamp, force)).Success?
  {
    if !Forced(force) {
      var file := pboBaseName + "_" + timestamp + ".pbo";
      var r := OutputPath(buildDir, pboBaseName, timestamp, force);
      assert r[|r| - |file|..] == file;
      assert r[|r| - 4..] == file[|file| - 4..] == ".pbo";
      assert r[|r| - 4] == '.' && r[|r| - 3] == 'p' && r[|r| - 2] == 'b' && r[|r| - 1] == 'o';
      assert HasExtension(r, "pbo", "PBO");
    }
  }

  /** Where the default output goes: inside the build directory, or, when the base name
      is an absolute path, at that path with the build directory left out. */
  lemma OutputPathLocation(buildDir: string, pboBaseName: string, timestamp: string, force: Option<string>)
    requires !Forced(force)
    ensures !PosixPath.IsAbsolute(pboBaseName) && buildDir != [] && buildDir[|buildDir| - 1] != '/' ==>
      OutputPath(buildDir, pboBaseName, timestamp, force) == buildDir + "/" + (pboBaseName + "_" + timestamp + ".pbo")
    ensures PosixPath.IsAbsolute(pboBaseName) ==>
      OutputPath(buildDir, pboBaseName, timestamp, force) == pboBaseName + "_" + timestamp + ".pbo"
  {
    var file := pboBaseName + "_" + timestamp + ".pbo";
    assert OutputPath(buildDir, pboBaseName, timestamp, force) == PosixPath.Join(buildDir, file);
    if pboBaseName != [] {
      assert file[0] == pboBaseName[0];
    } else {
      assert file[0] == '_';
    }
  }
}
