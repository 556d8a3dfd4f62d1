/**
 * The stub-package metadata of publishstubs.py: the `SetupTemplate` record,
 * its factory `from_project_information`, its `package_data` property, the
 * text of the `setup.py` it renders, and the "-stubs" naming the stub project
 * builder applies before rendering.
 */
module PublishStubs {
  import opened Wrappers
  import opened Text
  import opened PyRepr
  import opened PyDict

  /**
   * The `SetupTemplate` record. Its `__init__` only stores its arguments, and
   * nothing changes them afterwards, so the record is a value. `install_requires`
   * holds the list the factory passes in, not the `str` its annotation names.
   */
  datatype SetupTemplate = SetupTemplate(
    name: string,
    version: string,
    description: string,
    author: string,
    authorEmail: string,
    packages: seq<string>,
    packageDir: Dict<string>,
    installRequires: seq<string>,
    pythonRequires: string,
    includePackageData: bool,
    zipSafe: bool)

  /** The files each stub package ships. */
  const StubGlobs: seq<string> := ["*.pyi", "**/*.pyi"]

  /** The default `package_dir`, for a `src` layout. */
  const SrcLayout: Dict<string> := [("", "src")]

  /**
   * The `package_data` property: each package, once and in order of first
   * appearance, mapped to the stub globs. (The result is a dict, whatever its
   * annotation says.)
   */
  function PackageData(t: SetupTemplate): Dict<seq<string>>
  {
    FromKeys(t.packages, StubGlobs)
  }

  /**
   * `package_data` has exactly the packages as keys, with no key twice and in
   * the packages' order, and maps every key to the stub globs.
   */
  lemma PackageDataKeys(t: SetupTemplate)
    ensures forall p :: p in t.packages <==> p in Keys(PackageData(t))
    ensures forall i :: 0 <= i < |PackageData(t)| ==> PackageData(t)[i].1 == StubGlobs
    ensures Distinct(Keys(PackageData(t)))
    ensures Distinct(t.packages) ==> Keys(PackageData(t)) == t.packages
  {
    var d := PackageData(t);
    FromKeysSpec(t.packages, StubGlobs);
    if Distinct(t.packages) {
      FromKeysDistinct(t.packages, StubGlobs);
    }
    forall p | p in Keys(d) ensures p in t.packages {
      var i :| 0 <= i < |d| && Keys(d)[i] == p;
    }
  }

  /**
   * `SetupTemplate.from_project_information`: the record for a stub
   * distribution of `sourcePackageName`, with the fixed defaults filled in.
   */
  function FromProjectInformation(
    name: string,
    sourcePackageName: string,
    version: string,
    packages: seq<string>,
    packageDir: Dict<string> := SrcLayout): (t: SetupTemplate)
    ensures t.installRequires == [sourcePackageName + "==" + version]
    ensures t.description == "Auto generated stubs for the " + sourcePackageName + " package."
    ensures t.name == name && t.version == version
    ensures t.packages == packages && t.packageDir == packageDir
    ensures t.author == "Data Detector" && t.authorEmail == "esupport@gmail.com"
    ensures t.pythonRequires == ">=3.8"
    ensures t.includePackageData && !t.zipSafe
  {
    var installRequires := sourcePackageName + "==" + version;
    SetupTemplate(
      name := name,
      version := version,
      description := "Auto generated stubs for the " + sourcePackageName + " package.",
      author := "Data Detector",
      authorEmail := "esupport@gmail.com",
      packages := packages,
      packageDir := packageDir,
      installRequires := [installRequires],
      pythonRequires := ">=3.8",
      includePackageData := true,
      zipSafe := false)
  }

  /** What names a stub distribution or a stub package. */
  const StubSuffix := "-stubs"

  /** The stub name of a project or package: `f"{p}-stubs"`. */
  function StubName(p: string): string
  {
    p + StubSuffix
  }

  /** The name a stub name was derived from, if it carries the suffix. */
  function SourceName(stub: string): (r: Option<string>)
    ensures r.Some? ==> StubName(r.value) == stub
    ensures r.None? ==> !(|stub| >= |StubSuffix| && stub[|stub| - |StubSuffix|..] == StubSuffix)
  {
    var n := |StubSuffix|;
    if |stub| >= n && stub[|stub| - n..] == StubSuffix then
      assert stub == stub[..|stub| - n] + stub[|stub| - n..];
      Some(stub[..|stub| - n])
    else None
  }

  /** No name is lost by adding the suffix. */
  lemma StubNameRoundTrip(p: string)
    ensures SourceName(StubName(p)) == Some(p)
  {
    var s := StubName(p);
    assert s[|s| - |StubSuffix|..] == StubSuffix;
    assert s[..|s| - |StubSuffix|] == p;
  }

  /** The stub packages `[f"{package}-stubs" for package in package_names]`. */
  function StubPackages(ps: seq<string>): seq<string>
  {
    seq(|ps|, i requires 0 <= i < |ps| => StubName(ps[i]))
  }

  /**
   * One stub package per package, in the same order, each naming its package;
   * two packages share a stub package only if they are the same package.
   */
  lemma StubPackagesSpec(ps: seq<string>)
    ensures |StubPackages(ps)| == |ps|
    ensures forall i :: 0 <= i < |ps| ==> SourceName(StubPackages(ps)[i]) == Some(ps[i])
    ensures Distinct(StubPackages(ps)) <==> Distinct(ps)
  {
    var r := StubPackages(ps);
    forall i | 0 <= i < |ps| ensures SourceName(r[i]) == Some(ps[i]) {
      StubNameRoundTrip(ps[i]);
    }
  }

  /**
   * The template `_bootstrap_stubs_project` renders: the distribution
   * `<project>-stubs`, depending on the project at the same version, shipping
   * one `-stubs` package per package from a `src` layout.
   */
  function BootstrapTemplate(projectName: string, version: string, packageNames: seq<string>): (t: SetupTemplate)
    ensures SourceName(t.name) == Some(projectName)
    ensures t.installRequires == [projectName + "==" + version]
    ensures t.description == "Auto generated stubs for the " + projectName + " package."
    ensures t.version == version && t.packageDir == SrcLayout
    ensures |t.packages| == |packageNames|
    ensures forall i :: 0 <= i < |packageNames| ==> SourceName(t.packages[i]) == Some(packageNames[i])
  {
    StubNameRoundTrip(projectName);
    StubPackagesSpec(packageNames);
    FromProjectInformation(
      name := StubName(projectName),
      sourcePackageName := projectName,
      version := version,
      packages := StubPackages(packageNames),
      packageDir := SrcLayout)
  }

  /**
   * For packages named once each, `package_data` of the bootstrapped template
   * maps exactly the stub packages, in order, to the stub globs.
   */
  lemma BootstrapPackageData(projectName: string, version: string, packageNames: seq<string>)
    requires Distinct(packageNames)
    ensures Keys(PackageData(BootstrapTemplate(projectName, version, packageNames)))
      == StubPackages(packageNames)
    ensures forall i :: 0 <= i < |packageNames| ==>
      PackageData(BootstrapTemplate(projectName, version, packageNames))[i].1 == StubGlobs
  {
    var t := BootstrapTemplate(projectName, version, packageNames);
    StubPackagesSpec(packageNames);
    PackageDataKeys(t);
  }

  /**
   * A value as an f-string of the renderer formats it: `Quoted` is a `str`
   * placed between single quotes as it is, with no escaping; the others are
   * placed bare, which writes their `repr`.
   */
  datatype FieldValue =
    | Quoted(text: string)
    | StrList(items: seq<string>)
    | StrDict(entries: seq<(string, string)>)
    | GlobsDict(globs: seq<(string, seq<string>)>)
    | Flag(flag: bool)

  /** A text between single quotes, unescaped. */
  function Quote(s: string): string
  {
    "'" + s + "'"
  }

  /** The text of one value in the rendered script. */
  function Format(v: FieldValue): string
  {
    match v
    case Quoted(s) => Quote(s)
    case StrList(xs) => ReprList(xs)
    case StrDict(d) => ReprDict(d, ReprStr)
    case GlobsDict(d) => ReprDict(d, ReprList)
    case Flag(b) => ReprBool(b)
  }

  /**
   * Only a value placed between quotes unescaped can break the line: every
   * `repr` is a single line.
   */
  lemma FormatOneLine(v: FieldValue)
    ensures '\n' in Format(v) <==> v.Quoted? && '\n' in v.text
  {
    match v
    case Quoted(s) =>
    case StrList(xs) => ReprListOneLine(xs);
    case StrDict(d) =>
      forall i | 0 <= i < |d| ensures '\n' !in ReprStr(d[i].1) {
        ReprStrOneLine(d[i].1);
      }
      ReprDictOneLine(d, ReprStr);
    case GlobsDict(d) =>
      forall i | 0 <= i < |d| ensures '\n' !in ReprList(d[i].1) {
        ReprListOneLine(d[i].1);
      }
      ReprDictOneLine(d, ReprList);
    case Flag(b) =>
  }

  /** The keyword arguments of the `setup(...)` call, in the order they are written. */
  function Fields(t: SetupTemplate): seq<(string, FieldValue)>
  {
    [ ("name", Quoted(t.name)),
      ("version", Quoted(t.version)),
      ("description", Quoted(t.description)),
      ("author", Quoted(t.author)),
      ("author_email", Quoted(t.authorEmail)),
      ("packages", StrList(t.packages)),
      ("package_dir", StrDict(t.packageDir)),
      ("install_requires", StrList(t.installRequires)),
      ("python_requires", Quoted(t.pythonRequires)),
      ("include_package_data", Flag(t.includePackageData)),
      ("package_data", GlobsDict(PackageData(t))),
      ("zip_safe", Flag(t.zipSafe)) ]
  }

  /** Each keyword with the text of its value. */
  function Rendered(fs: seq<(string, FieldValue)>): seq<(string, string)>
  {
    seq(|fs|, j requires 0 <= j < |fs| => (fs[j].0, Format(fs[j].1)))
  }

  /** One keyword argument line of the `setup(...)` call, without its line feed. */
  function Line(key: string, value: string): string
  {
    "    " + key + "=" + value + ","
  }

  /** The argument lines for `fs[i..]`, each ended by a line feed. */
  function FieldLines(fs: seq<(string, string)>, i: nat): string
    requires i <= |fs|
    decreases |fs| - i
  {
    if i == |fs| then "" else Line(fs[i].0, fs[i].1) + "\n" + FieldLines(fs, i + 1)
  }

  /** What the script holds before its argument lines. */
  const Opening := "from setuptools import setup\n\nsetup(\n"

  /** The text `auto_generate_setup_script` returns. */
  function SetupScript(t: SetupTemplate): (s: string)
    ensures Opening <= s
    ensures s[|s| - 1] == ')'
  {
    Opening + FieldLines(Rendered(Fields(t)), 0) + ")"
  }

  /** The six values written between quotes without escaping hold no line feed. */
  predicate NoRawNewlines(t: SetupTemplate)
  {
    '\n' !in t.name && '\n' !in t.version && '\n' !in t.description &&
    '\n' !in t.author && '\n' !in t.authorEmail && '\n' !in t.pythonRequires
  }

  /** No key or value of `fs[i..]` holds a line feed. */
  predicate OneLineFrom(fs: seq<(string, string)>, i: nat)
  {
    forall j :: i <= j < |fs| ==> '\n' !in fs[j].0 && '\n' !in fs[j].1
  }

  /** The argument lines of `fs`, without their line feeds. */
  function LineTexts(fs: seq<(string, string)>): seq<string>
  {
    seq(|fs|, j requires 0 <= j < |fs| => Line(fs[j].0, fs[j].1))
  }

  /** No key of `fs` holds a line feed, and no value written unescaped does. */
  predicate SingleLineFields(fs: seq<(string, FieldValue)>)
  {
    forall j :: 0 <= j < |fs| ==> '\n' !in fs[j].0 && !(fs[j].1.Quoted? && '\n' in fs[j].1.text)
  }

  lemma RenderedOneLine(fs: seq<(string, FieldValue)>)
    ensures OneLineFrom(Rendered(fs), 0) <==> SingleLineFields(fs)
  {
    var r := Rendered(fs);
    forall j | 0 <= j < |fs|
      ensures '\n' in r[j].1 <==> fs[j].1.Quoted? && '\n' in fs[j].1.text
    {
      FormatOneLine(fs[j].1);
    }
    if !SingleLineFields(fs) {
      var j :| 0 <= j < |fs| && !('\n' !in fs[j].0 && !(fs[j].1.Quoted? && '\n' in fs[j].1.text));
      assert r[j].0 == fs[j].0;
    }
  }

  lemma FieldsSingleLine(t: SetupTemplate)
    ensures SingleLineFields(Fields(t)) <==> NoRawNewlines(t)
  {
    var fs := Fields(t);
    if !NoRawNewlines(t) {
      var j :=
        if '\n' in t.name then 0 else if '\n' in t.version then 1
        else if '\n' in t.description then 2 else if '\n' in t.author then 3
        else if '\n' in t.authorEmail then 4 else 8;
      assert fs[j].1.Quoted? && '\n' in fs[j].1.text;
    }
  }

  /** The argument lines are single lines exactly when the six values written unescaped are. */
  lemma FieldsOneLine(t: SetupTemplate)
    ensures OneLineFrom(Rendered(Fields(t)), 0) <==> NoRawNewlines(t)
  {
    RenderedOneLine(Fields(t));
    FieldsSingleLine(t);
  }

  lemma LineTextsAt(fs: seq<(string, string)>, i: nat)
    requires i < |fs|
    ensures LineTexts(fs)[i..] == [Line(fs[i].0, fs[i].1)] + LineTexts(fs)[i + 1..]
  {
  }

  /** Splitting the argument lines gives one line per argument. */
  lemma {:induction false} SplitFieldLines(fs: seq<(string, string)>, i: nat, rest: string)
    requires i <= |fs| && OneLineFrom(fs, i)
    ensures Split(FieldLines(fs, i) + rest) == LineTexts(fs)[i..] + Split(rest)
    decreases |fs| - i
  {
    if i == |fs| {
      assert FieldLines(fs, i) + rest == rest;
    } else {
      var text := Line(fs[i].0, fs[i].1);
      var tail := FieldLines(fs, i + 1) + rest;
      assert FieldLines(fs, i) + rest == text + "\n" + tail;
      SplitLine(text, tail);
      SplitFieldLines(fs, i + 1, rest);
      LineTextsAt(fs, i);
      var later := LineTexts(fs)[i + 1..];
      calc {
        Split(FieldLines(fs, i) + rest);
        [text] + Split(tail);
        [text] + (later + Split(rest));
        { AppendAssoc([text], later, Split(rest)); }
        ([text] + later) + Split(rest);
      }
    }
  }

  lemma LineNewlines(key: string, v: string)
    ensures NewlineCount(Line(key, v) + "\n") == NewlineCount(key) + NewlineCount(v) + 1
  {
    NewlineCountAppend("    ", key);
    NewlineCountAppend("    " + key, "=");
    NewlineCountAppend("    " + key + "=", v);
    NewlineCountAppend("    " + key + "=" + v, ",");
    NewlineCountAppend(Line(key, v), "\n");
  }

  /** Each argument line adds one line feed to those inside its key and value. */
  lemma {:induction false} FieldLinesNewlines(fs: seq<(string, string)>, i: nat)
    requires i <= |fs|
    ensures NewlineCount(FieldLines(fs, i)) >= |fs| - i
    ensures NewlineCount(FieldLines(fs, i)) == |fs| - i <==> OneLineFrom(fs, i)
    decreases |fs| - i
  {
    if i < |fs| {
      FieldLinesNewlines(fs, i + 1);
      LineNewlines(fs[i].0, fs[i].1);
      NewlineCountAppend(Line(fs[i].0, fs[i].1) + "\n", FieldLines(fs, i + 1));
      assert OneLineFrom(fs, i) <==> '\n' !in fs[i].0 && '\n' !in fs[i].1 && OneLineFrom(fs, i + 1);
    }
  }

  /** `Opening` is the import line, a blank line and the line `setup(`. */
  lemma OpeningParts()
    ensures Opening == "from setuptools import setup" + "\n" + ("" + "\n" + ("setup(" + "\n"))
  {
  }

  lemma OpeningNewlines(body: string)
    ensures NewlineCount(Opening + body + ")") == 3 + NewlineCount(body)
  {
    var tail := body + ")";
    OpeningParts();
    assert Opening + body + ")"
      == "from setuptools import setup" + "\n" + ("" + "\n" + ("setup(" + "\n" + tail));
    NewlineCountLine("from setuptools import setup", "" + "\n" + ("setup(" + "\n" + tail));
    NewlineCountLine("", "setup(" + "\n" + tail);
    NewlineCountLine("setup(", tail);
    NewlineCountAppend(body, ")");
  }

  /**
   * The script holds 15 line feeds (two after the import, one after `setup(`,
   * one per argument) plus those inside the six values written unescaped:
   * exactly 15 when those values are single lines, more otherwise.
   */
  lemma ScriptNewlines(t: SetupTemplate)
    ensures NewlineCount(SetupScript(t)) >= 15
    ensures NewlineCount(SetupScript(t)) == 15 <==> NoRawNewlines(t)
  {
    var fs := Rendered(Fields(t));
    assert |fs| == 12;
    FieldsOneLine(t);
    FieldLinesNewlines(fs, 0);
    OpeningNewlines(FieldLines(fs, 0));
  }

  /** `Opening` contributes the import line, a blank line and `setup(`. */
  lemma OpeningSplit(body: string)
    ensures Split(Opening + body) == ["from setuptools import setup", "", "setup("] + Split(body)
  {
    OpeningParts();
    assert Opening + body
      == "from setuptools import setup" + "\n" + ("" + "\n" + ("setup(" + "\n" + body));
    SplitThreeLines("from setuptools import setup", "", "setup(", body);
  }

  /** The lines of a script whose arguments are single lines. */
  lemma OpeningLines(fs: seq<(string, string)>)
    requires OneLineFrom(fs, 0)
    ensures Split(Opening + FieldLines(fs, 0) + ")")
      == ["from setuptools import setup", "", "setup("] + LineTexts(fs) + [")"]
  {
    var body := FieldLines(fs, 0) + ")";
    SplitFieldLines(fs, 0, ")");
    SplitSingle(")");
    assert LineTexts(fs)[0..] == LineTexts(fs);
    assert Split(body) == LineTexts(fs) + [")"];
    OpeningSplit(body);
    assert Opening + FieldLines(fs, 0) + ")" == Opening + body;
    AppendAssoc(["from setuptools import setup", "", "setup("], LineTexts(fs), [")"]);
  }

  /** The argument lines, one per keyword in the order written, each value formatted as the f-string does. */
  lemma ArgumentTexts(t: SetupTemplate)
    ensures LineTexts(Rendered(Fields(t))) == [
      Line("name", Quote(t.name)),
      Line("version", Quote(t.version)),
      Line("description", Quote(t.description)),
      Line("author", Quote(t.author)),
      Line("author_email", Quote(t.authorEmail)),
      Line("packages", ReprList(t.packages)),
      Line("package_dir", ReprDict(t.packageDir, ReprStr)),
      Line("install_requires", ReprList(t.installRequires)),
      Line("python_requires", Quote(t.pythonRequires)),
      Line("include_package_data", ReprBool(t.includePackageData)),
      Line("package_data", ReprDict(PackageData(t), ReprList)),
      Line("zip_safe", ReprBool(t.zipSafe))]
  {
  }

  /**
   * When the six values written unescaped are single lines, the script's lines
   * are the import, a blank line, `setup(`, one line per argument in the fixed
   * order, and the closing parenthesis.
   */
  lemma ScriptLines(t: SetupTemplate)
    requires NoRawNewlines(t)
    ensures Split(SetupScript(t)) == ["from setuptools import setup", "", "setup("] + [
      Line("name", Quote(t.name)),
      Line("version", Quote(t.version)),
      Line("description", Quote(t.description)),
      Line("author", Quote(t.author)),
      Line("author_email", Quote(t.authorEmail)),
      Line("packages", ReprList(t.packages)),
      Line("package_dir", ReprDict(t.packageDir, ReprStr)),
      Line("install_requires", ReprList(t.installRequires)),
      Line("python_requires", Quote(t.pythonRequires)),
      Line("include_package_data", ReprBool(t.includePackageData)),
      Line("package_data", ReprDict(PackageData(t), ReprList)),
      Line("zip_safe", ReprBool(t.zipSafe))] + [")"]
  {
    var fs := Rendered(Fields(t));
    FieldsOneLine(t);
    OpeningLines(fs);
    ArgumentTexts(t);
  }

  /** The fixed defaults of `from_project_information` are single lines. */
  lemma DefaultsOneLine()
    ensures '\n' !in "Data Detector" && '\n' !in "esupport@gmail.com" && '\n' !in ">=3.8"
    ensures '\n' !in "Auto generated stubs for the " && '\n' !in " package."
  {
  }

  /**
   * A template from `from_project_information` writes no line feed unescaped
   * unless its name, source package name or version holds one.
   */
  lemma FactoryOneLine(name: string, sourcePackageName: string, version: string, packages: seq<string>, packageDir: Dict<string>)
    requires '\n' !in name && '\n' !in sourcePackageName && '\n' !in version
    ensures NoRawNewlines(FromProjectInformation(name, sourcePackageName, version, packages, packageDir))
  {
    var t := FromProjectInformation(name, sourcePackageName, version, packages, packageDir);
    DefaultsOneLine();
    NoNewlineJoin("Auto generated stubs for the ", sourcePackageName, " package.");
  }

  /**
   * The `setup.py` that `_bootstrap_stubs_project` writes, for a project name
   * and version on one line each: the `-stubs` distribution of the project at
   * that version, its `-stubs` packages from a `src` layout, the fixed
   * defaults, and the stub globs for every stub package.
   */
  lemma BootstrapScript(projectName: string, version: string, packageNames: seq<string>)
    requires '\n' !in projectName && '\n' !in version
    ensures Split(SetupScript(BootstrapTemplate(projectName, version, packageNames)))
      == ["from setuptools import setup", "", "setup("] + [
        Line("name", Quote(StubName(projectName))),
        Line("version", Quote(version)),
        Line("description", Quote("Auto generated stubs for the " + projectName + " package.")),
        Line("author", Quote("Data Detector")),
        Line("author_email", Quote("esupport@gmail.com")),
        Line("packages", ReprList(StubPackages(packageNames))),
        Line("package_dir", ReprDict(SrcLayout, ReprStr)),
        Line("install_requires", ReprList([projectName + "==" + version])),
        Line("python_requires", Quote(">=3.8")),
        Line("include_package_data", ReprBool(true)),
        Line("package_data", ReprDict(FromKeys(StubPackages(packageNames), StubGlobs), ReprList)),
        Line("zip_safe", ReprBool(false))] + [")"]
  {
    var t := BootstrapTemplate(projectName, version, packageNames);
    assert '\n' !in StubName(projectName);
    FactoryOneLine(StubName(projectName), projectName, version, StubPackages(packageNames), SrcLayout);
    ScriptLines(t);
  }
}
