/** The source-documentation generator of the documentation build
    (`generate_docs` in openmdao/docs/conf.py). It lists the openmdao
    packages, keeps the source files and sub-directories of each, and writes
    the `srcdocs` tree:
    - a top-level index naming every package that has something to document;
    - a package file per such package, listing its sub-packages;
    - a reference sheet per sub-package.

    The file system is abstract. The directories that exist are a set of
    paths relative to the documentation directory. Directory listings are
    given as inputs: the listing of the openmdao directory, and a function
    giving each package directory's listing already in sorted order. The
    tree written is a map from `DocPath` to file contents. */
module SourceDocs {
  import opened PyStr

  /** Top-level directories that are never documented. */
  const IgnoreList: seq<string> := ["docs", "test", "config", "devtools", "__pycache__"]

  /** The packages documented first, in this order. */
  const Preferred: seq<string> :=
    ["core", "components", "drivers", "solvers", "recorders", "surrogate_models", "util", "units"]

  /** Sub-packages that get no line and no reference sheet. */
  const SkipSubPackages: seq<string> := ["nn_interpolators"]

  /** `os.path.join("..", name)` as seen from the documentation directory. */
  function Up(name: string): string {
    "../" + name
  }

  /** A top-level listing entry becomes a package: a directory, not ignored. */
  predicate Candidate(listing: string, dirs: set<string>) {
    Up(listing) in dirs && listing !in IgnoreList
  }

  /** The package list: the preferred packages, then each candidate of the
      listing, in listing order, unless it is already in the list. */
  function PackageList(listing: seq<string>, dirs: set<string>): seq<string> {
    if listing == [] then Preferred
    else
      var ps := PackageList(listing[..|listing| - 1], dirs);
      var x := listing[|listing| - 1];
      if Candidate(x, dirs) && x !in ps then ps + [x] else ps
  }

  predicate Distinct(s: seq<string>) {
    forall a, b :: 0 <= a < b < |s| ==> s[a] != s[b]
  }

  /** The loop that builds `packages` in `generate_docs`. */
  method ListPackages(listing: seq<string>, dirs: set<string>) returns (packages: seq<string>)
    ensures packages == PackageList(listing, dirs)
  {
    packages := Preferred;
    var i := 0;
    while i < |listing|
      invariant 0 <= i <= |listing|
      invariant packages == PackageList(listing[..i], dirs)
    {
      var entry := listing[i];
      if Up(entry) in dirs {
        if entry !in IgnoreList && entry !in packages {
          packages := packages + [entry];
        }
      }
      assert listing[..i + 1][..i] == listing[..i];
      i := i + 1;
    }
    assert listing[..i] == listing;
  }

  /** The list starts with the eight preferred packages in their order. */
  lemma {:induction false} PackageListPrefix(listing: seq<string>, dirs: set<string>)
    ensures |PackageList(listing, dirs)| >= |Preferred|
    ensures PackageList(listing, dirs)[..|Preferred|] == Preferred
    decreases |listing|
  {
    if listing != [] {
      var ps := PackageList(listing[..|listing| - 1], dirs);
      PackageListPrefix(listing[..|listing| - 1], dirs);
      var x := listing[|listing| - 1];
      if Candidate(x, dirs) && x !in ps {
        assert (ps + [x])[..|Preferred|] == ps[..|Preferred|];
      }
    }
  }

  lemma PreferredDistinct()
    ensures Distinct(Preferred)
  {
    assert forall k :: 0 <= k < |Preferred| ==> |Preferred[k]| >= 4;
    assert Preferred[0][1] == 'o' && Preferred[1][1] == 'o' && Preferred[0][2] == 'r' && Preferred[1][2] == 'm';
    assert Preferred[2][0] == 'd' && Preferred[4][0] == 'r';
    assert Preferred[3][1] == 'o' && Preferred[5][1] == 'u';
    assert Preferred[6][1] == 't' && Preferred[7][1] == 'n';
    assert Preferred[0][0] == 'c' && Preferred[1][0] == 'c' && Preferred[3][0] == 's' && Preferred[5][0] == 's';
    assert Preferred[6][0] == 'u' && Preferred[7][0] == 'u';
  }

  /** A package name is in the list exactly when it is preferred or a
      candidate of the listing. */
  lemma {:induction false} PackageListMembers(listing: seq<string>, dirs: set<string>, x: string)
    ensures x in PackageList(listing, dirs) <==> x in Preferred || (x in listing && Candidate(x, dirs))
    decreases |listing|
  {
    if listing != [] {
      var init := listing[..|listing| - 1];
      PackageListMembers(init, dirs, x);
      assert listing == init + [listing[|listing| - 1]];
    }
  }

  /** The package list never holds a name twice. */
  lemma {:induction false} PackageListDistinct(listing: seq<string>, dirs: set<string>)
    ensures Distinct(PackageList(listing, dirs))
    decreases |listing|
  {
    if listing == [] {
      PreferredDistinct();
    } else {
      PackageListDistinct(listing[..|listing| - 1], dirs);
    }
  }

  /** The candidates of a listing that are not preferred, in listing order. */
  function NewPackages(listing: seq<string>, dirs: set<string>): seq<string> {
    if listing == [] then []
    else
      var x := listing[|listing| - 1];
      NewPackages(listing[..|listing| - 1], dirs) + (if Candidate(x, dirs) && x !in Preferred then [x] else [])
  }

  lemma NewPackagesMembers(listing: seq<string>, dirs: set<string>, x: string)
    ensures x in NewPackages(listing, dirs) <==> x in listing && Candidate(x, dirs) && x !in Preferred
  {
    if listing != [] {
      var init := listing[..|listing| - 1];
      NewPackagesMembers(init, dirs, x);
      assert listing == init + [listing[|listing| - 1]];
    }
  }

  /** When the listing names every entry once, as a directory listing does,
      the list is the preferred packages followed by the other candidates in
      listing order. */
  lemma {:induction false} PackageListOrder(listing: seq<string>, dirs: set<string>)
    requires Distinct(listing)
    ensures PackageList(listing, dirs) == Preferred + NewPackages(listing, dirs)
    decreases |listing|
  {
    if listing != [] {
      var init := listing[..|listing| - 1];
      var x := listing[|listing| - 1];
      PackageListOrder(init, dirs);
      if x !in Preferred {
        NewPackagesMembers(init, dirs, x);
        assert x !in init;
      }
    }
  }

  /** `sub_listing.rsplit('.')[0]`: with no limit `rsplit` cuts at every dot,
      so the first piece is the text before the first dot. */
  function BaseName(s: string): string {
    Split(s, ".")[0]
  }

  /** A base name holds no dot. */
  lemma BaseNameNoDot(s: string)
    ensures '.' !in BaseName(s)
  {
    SplitPiecesFree(s, ".");
    var b := BaseName(s);
    forall k | 0 <= k < |b| ensures b[k] != '.' {
      assert !OccursAt(b, ".", k);
      assert b[k..k + 1] == [b[k]];
    }
  }

  /** A file name with one dot, before `py`, is named by its stem. */
  lemma BaseNameOfModule(s: string)
    requires EndsWith(s, ".py") && '.' !in s[..|s| - 3]
    ensures BaseName(s) == s[..|s| - 3]
  {
    var i := |s| - 3;
    assert OccursAt(s, ".", i) by {
      assert s[i..i + 1] == s[i..][..1];
    }
    forall j | 0 <= j < i ensures !OccursAt(s, ".", j) {
      assert s[j] == s[..i][j];
      assert s[j..j + 1] == [s[j]];
    }
    match FindFrom(s, ".", 0)
    case None =>
      assert false;
    case Some(f) =>
      assert f == i;
  }

  /** Which entries of a package directory become sub-packages: directories
      other than `test`, and `.py` files whose name does not start with `_`. */
  predicate Kept(entry: string, isDir: bool) {
    (isDir && entry != "test") || (EndsWith(entry, ".py") && !StartsWith(entry, "_"))
  }

  /** The sub-packages collected from a package listing, given the test that
      decides whether an entry is a directory: one name per kept entry, its
      text before the first dot, in listing order. */
  function SubPackagesWith(subListing: seq<string>, isDir: string -> bool): seq<string> {
    if subListing == [] then []
    else
      var x := subListing[|subListing| - 1];
      SubPackagesWith(subListing[..|subListing| - 1], isDir)
        + (if Kept(x, isDir(x)) then [BaseName(x)] else [])
  }

  /** The sub-packages as the source collects them: `os.path.isdir(sub_listing)`
      looks the bare entry up in the documentation directory. */
  function SubPackagesAsWritten(subListing: seq<string>, dirs: set<string>): seq<string> {
    SubPackagesWith(subListing, x => x in dirs)
  }

  /** The sub-packages of `package` as evidently intended: an entry is checked
      for being a directory where it lives, inside the package directory. */
  function SubPackages(package: string, subListing: seq<string>, dirs: set<string>): seq<string> {
    SubPackagesWith(subListing, x => Up(package) + "/" + x in dirs)
  }

  /** As written, a sub-package directory is dropped: `nn_interpolators`,
      a directory of `surrogate_models`, is checked in the documentation
      directory, found missing there, and not kept. */
  lemma SubDirectoryDropped()
    ensures SubPackagesAsWritten(["nn_interpolators"], {Up("surrogate_models") + "/nn_interpolators"}) == []
    ensures SubPackages("surrogate_models", ["nn_interpolators"], {Up("surrogate_models") + "/nn_interpolators"})
         == [BaseName("nn_interpolators")]
  {
    var x := "nn_interpolators";
    var d := Up("surrogate_models") + "/nn_interpolators";
    NotAModule();
    assert |x| < |d|;
    assert [x][..0] == [];
    assert Up("surrogate_models") + "/" + x == d;
  }

  lemma NotAModule()
    ensures !Kept("nn_interpolators", false) && Kept("nn_interpolators", true)
  {
    var x := "nn_interpolators";
    assert x[|x| - 1] == 's';
    assert x[0] == 'n';
  }

  /** Entry `x` is kept under the directory test `isDir` and documented as `s`. */
  predicate Yields(x: string, isDir: string -> bool, s: string) {
    Kept(x, isDir(x)) && BaseName(x) == s
  }

  lemma SubPackagesSnoc(subListing: seq<string>, isDir: string -> bool, s: string)
    requires subListing != []
    ensures s in SubPackagesWith(subListing, isDir)
        <==> s in SubPackagesWith(subListing[..|subListing| - 1], isDir)
             || Yields(subListing[|subListing| - 1], isDir, s)
  {
  }

  /** A name is collected exactly when some kept entry has it as its base name. */
  lemma {:induction false} SubPackagesWithMembers(subListing: seq<string>, isDir: string -> bool, s: string)
    ensures s in SubPackagesWith(subListing, isDir)
        <==> exists k :: 0 <= k < |subListing| && Yields(subListing[k], isDir, s)
    decreases |subListing|
  {
    if subListing != [] {
      var n := |subListing| - 1;
      var init := subListing[..n];
      SubPackagesWithMembers(init, isDir, s);
      SubPackagesSnoc(subListing, isDir, s);
      YieldsSnoc(subListing, init, isDir, s);
    }
  }

  /** Some entry yields `s` exactly when one before the last does or the last one does. */
  lemma YieldsSnoc(subListing: seq<string>, init: seq<string>, isDir: string -> bool, s: string)
    requires subListing != [] && init == subListing[..|subListing| - 1]
    ensures (exists k :: 0 <= k < |subListing| && Yields(subListing[k], isDir, s))
        <==> (exists k :: 0 <= k < |init| && Yields(init[k], isDir, s)) || Yields(subListing[|subListing| - 1], isDir, s)
  {
    if exists k :: 0 <= k < |subListing| && Yields(subListing[k], isDir, s) {
      var k :| 0 <= k < |subListing| && Yields(subListing[k], isDir, s);
      if k < |init| {
        assert init[k] == subListing[k];
      }
    }
    if exists k :: 0 <= k < |init| && Yields(init[k], isDir, s) {
      var k :| 0 <= k < |init| && Yields(init[k], isDir, s);
      assert subListing[k] == init[k];
    }
  }

  /** As written, a name is a sub-package exactly when some entry that is a
      directory of the documentation directory (other than `test`), or a `.py`
      file not starting with `_`, has that name before its first dot. */
  lemma SubPackagesAsWrittenMembers(subListing: seq<string>, dirs: set<string>, s: string)
    ensures s in SubPackagesAsWritten(subListing, dirs)
        <==> exists k :: 0 <= k < |subListing| && Kept(subListing[k], subListing[k] in dirs) && BaseName(subListing[k]) == s
  {
    var isDir := x => x in dirs;
    SubPackagesWithMembers(subListing, isDir, s);
    assert forall k :: 0 <= k < |subListing| ==> (Yields(subListing[k], isDir, s) <==> Kept(subListing[k], subListing[k] in dirs) && BaseName(subListing[k]) == s);
  }

  /** As intended, a name is a sub-package exactly when some entry that is a
      directory of the package (other than `test`), or a `.py` file not
      starting with `_`, has that name before its first dot. */
  lemma SubPackagesMembers(package: string, subListing: seq<string>, dirs: set<string>, s: string)
    ensures s in SubPackages(package, subListing, dirs)
        <==> exists k :: 0 <= k < |subListing| && Kept(subListing[k], Up(package) + "/" + subListing[k] in dirs) && BaseName(subListing[k]) == s
  {
    var isDir := x => Up(package) + "/" + x in dirs;
    SubPackagesWithMembers(subListing, isDir, s);
    assert forall k :: 0 <= k < |subListing| ==> (Yields(subListing[k], isDir, s) <==> Kept(subListing[k], Up(package) + "/" + subListing[k] in dirs) && BaseName(subListing[k]) == s);
  }

  /** The two directory tests give the same sub-packages on a listing where
      they agree on every entry. */
  lemma {:induction false} SubPackagesAgree(package: string, subListing: seq<string>, dirs: set<string>)
    requires forall k :: 0 <= k < |subListing| ==> (subListing[k] in dirs <==> Up(package) + "/" + subListing[k] in dirs)
    ensures SubPackagesAsWritten(subListing, dirs) == SubPackages(package, subListing, dirs)
    decreases |subListing|
  {
    if subListing != [] {
      var n := |subListing| - 1;
      var init := subListing[..n];
      forall k | 0 <= k < |init| ensures init[k] in dirs <==> Up(package) + "/" + init[k] in dirs {
        assert init[k] == subListing[k];
      }
      SubPackagesAgree(package, init, dirs);
    }
  }

  /** One name per kept entry, so never more names than entries. */
  lemma {:induction false} SubPackagesBound(subListing: seq<string>, isDir: string -> bool)
    ensures |SubPackagesWith(subListing, isDir)| <= |subListing|
    decreases |subListing|
  {
    if subListing != [] {
      SubPackagesBound(subListing[..|subListing| - 1], isDir);
    }
  }

  /** The loop that builds `sub_packages` for one package. */
  method ListSubPackages(subListing: seq<string>, dirs: set<string>) returns (subPackages: seq<string>)
    ensures subPackages == SubPackagesAsWritten(subListing, dirs)
  {
    subPackages := [];
    var i := 0;
    while i < |subListing|
      invariant 0 <= i <= |subListing|
      invariant subPackages == SubPackagesAsWritten(subListing[..i], dirs)
    {
      var entry := subListing[i];
      if Kept(entry, entry in dirs) {
        subPackages := subPackages + [BaseName(entry)];
      }
      assert subListing[..i + 1][..i] == subListing[..i];
      i := i + 1;
    }
    assert subListing[..i] == subListing;
  }

  /** A reST heading: the title, then an underline of `c` as long as the title. */
  function Heading(title: string, c: char): string {
    title + "\n" + Repeat(c, |title|) + "\n"
  }

  /** A one-line title gives a heading of exactly two lines, the second being
      `c` repeated as many times as the title has characters. */
  lemma HeadingLines(title: string, c: char)
    requires '\n' !in title && c != '\n'
    ensures Split(Heading(title, c), "\n") == [title, Repeat(c, |title|), ""]
  {
    var u := Repeat(c, |title|);
    var rest := u + "\n";
    AppendAssoc(title + "\n", u, "\n");
    FirstLine(title, rest);
    assert u + "\n" + "" == rest;
    FirstLine(u, "");
    assert Split("", "\n") == [""];
  }

  /** Splitting a line followed by a newline cuts just after the line. */
  lemma FirstLine(line: string, rest: string)
    requires '\n' !in line
    ensures Split(line + "\n" + rest, "\n") == [line] + Split(rest, "\n")
  {
    var s := line + "\n" + rest;
    forall j | 0 <= j < |line| ensures !OccursAt(s, "\n", j) {
      assert s[j] == line[j];
      assert s[j..j + 1] == [s[j]];
    }
    assert OccursAt(s, "\n", |line|) by {
      assert s[|line|..|line| + 1] == "\n";
    }
    assert s[..|line|] == line;
    assert s[|line| + 1..] == rest;
    match FindFrom(s, "\n", 0)
    case None =>
      assert false;
    case Some(f) =>
      assert f == |line|;
  }

  const IndexTop: string :=
    ".. _source_documentation:\n\n=============================\nOpenMDAO Source Documentation\n=============================\n\n.. toctree::\n   :maxdepth: 3\n   :glob:\n\n\n"

  const PackageTop: string := "\n.. toctree::\n    :maxdepth: 3\n\n"

  const PackageBottom: string :=
    "\nIndices and tables\n==================\n\n* :ref:`genindex`\n* :ref:`modindex`\n* :ref:`search`\n"

  /** `ref_sheet_bottom`: the newline ending the `automodule` line, then its
      options and a closing toctree. */
  const RefSheetBottom: string := "\n" + RefSheetOptions

  const RefSheetOptions: string :=
    "   :members:\n   :undoc-members:\n   :show-inheritance:\n\n.. toctree::\n   :maxdepth: 2\n"

  /** The files of the `srcdocs` tree: the top-level index, one package file
      per documented package, one reference sheet per sub-package. */
  datatype DocPath = IndexFile | PackageFile(package: string) | RefSheet(package: string, sub: string)

  /** The line of the top-level index naming a package. */
  function IndexLine(package: string): string {
    "   packages/openmdao." + package + "\n"
  }

  /** The line of a package file naming one of its sub-packages. */
  function SubLine(package: string, sub: string): string {
    "    " + package + "/" + sub + "\n"
  }

  function SubLines(package: string, subs: seq<string>): string {
    if subs == [] then ""
    else
      var s := subs[|subs| - 1];
      SubLines(package, subs[..|subs| - 1]) + (if s !in SkipSubPackages then SubLine(package, s) else "")
  }

  function PackageText(package: string, subs: seq<string>): string {
    Heading("openmdao." + package, '-') + PackageTop + SubLines(package, subs) + PackageBottom
  }

  lemma PackageTextRegroup(t: string, u: string, top: string, lines: string, bottom: string)
    ensures t + "\n" + u + "\n" + top + lines + bottom == t + "\n" + (u + "\n" + (top + lines + bottom))
  {
    var x := top + lines + bottom;
    AppendAssoc(t + "\n" + u + "\n" + top, lines, bottom);
    AppendAssoc(t + "\n" + u + "\n", top, lines + bottom);
    AppendAssoc(top, lines, bottom);
    AppendAssoc(t + "\n" + u, "\n", x);
    AppendAssoc(t + "\n", u, "\n" + x);
    AppendAssoc(u, "\n", x);
  }

  /** A package file opens with the package name and a `-` underline exactly
      as long as it. */
  lemma PackageTextLines(package: string, subs: seq<string>)
    requires '\n' !in package
    ensures var packageName := "openmdao." + package;
            var lines := Split(PackageText(package, subs), "\n");
            |lines| >= 2 && lines[..2] == [packageName, Repeat('-', |packageName|)]
  {
    var t := "openmdao." + package;
    var u := Repeat('-', |t|);
    var x := PackageTop + SubLines(package, subs) + PackageBottom;
    PackageTextRegroup(t, u, PackageTop, SubLines(package, subs), PackageBottom);
    assert '\n' !in u;
    TwoHeadLines(t, u, x);
  }

  /** The first two lines of a text made of two lines and a rest. */
  lemma TwoHeadLines(t: string, u: string, x: string)
    requires '\n' !in t && '\n' !in u
    ensures var lines := Split(t + "\n" + (u + "\n" + x), "\n");
            |lines| >= 2 && lines[..2] == [t, u]
  {
    FirstLine(t, u + "\n" + x);
    FirstLine(u, x);
    var lines := Split(t + "\n" + (u + "\n" + x), "\n");
    assert lines == [t] + ([u] + Split(x, "\n"));
    assert lines[0] == t && lines[1] == u;
  }

  /** The text of one reference sheet: its six writes, in order. */
  function RefSheetText(package: string, sub: string): string {
    var packageName := "openmdao." + package;
    var filename := sub + ".py";
    (".. index:: " + filename + "\n\n")
      + ((".. _" + packageName + "." + filename + ":\n\n")
      + ((filename + "\n")
      + ((Repeat('+', |filename|) + "\n\n")
      + ((".. automodule:: " + packageName + "." + sub)
      + RefSheetBottom))))
  }

  /** A reference sheet opens with eight lines: the index entry, a blank, the
      label, a blank, the file name, its `+` underline of the same length, a
      blank, and the `automodule` directive, which the options follow. */
  lemma RefSheetLines(package: string, sub: string)
    requires '\n' !in package && '\n' !in sub
    ensures var filename := sub + ".py";
            var packageName := "openmdao." + package;
            var lines := Split(RefSheetText(package, sub), "\n");
            |lines| >= 8
            && lines[..8] == [".. index:: " + filename, "", ".. _" + packageName + "." + filename + ":", "",
                              filename, Repeat('+', |filename|), "", ".. automodule:: " + packageName + "." + sub]
  {
    var packageName := "openmdao." + package;
    var filename := sub + ".py";
    var u := Repeat('+', |filename|);
    var auto := ".. automodule:: " + packageName + "." + sub;
    var target := ".. _" + packageName + "." + filename + ":";
    var x2 := (filename + "\n") + ((u + "\n\n") + (auto + RefSheetBottom));
    var x1 := (".. _" + packageName + "." + filename + ":\n\n") + x2;
    var options := RefSheetOptions;
    assert '\n' !in u;
    TailLines(filename, u, auto);
    var s2 := Split(x2, "\n");
    LabelLines(".. _" + packageName + "." + filename, x2);
    var s1 := Split(x1, "\n");
    assert s1 == [target, ""] + s2;
    assert RefSheetText(package, sub) == (".. index:: " + filename + "\n\n") + x1;
    TwoLines(".. index:: " + filename, x1);
    var s0 := Split(RefSheetText(package, sub), "\n");
    assert s0 == [".. index:: " + filename, ""] + s1;
    HeadOfLines(".. index:: " + filename, target, filename, u, auto, Split(options, "\n"));
  }

  /** The file name, its underline, a blank, and the `automodule` line that
      the options follow. */
  lemma TailLines(filename: string, u: string, auto: string)
    requires '\n' !in filename && '\n' !in u && '\n' !in auto
    ensures Split((filename + "\n") + ((u + "\n\n") + (auto + RefSheetBottom)), "\n")
         == [filename] + ([u, ""] + ([auto] + Split(RefSheetOptions, "\n")))
  {
    var options := RefSheetOptions;
    var x4 := auto + RefSheetBottom;
    AppendAssoc(auto, "\n", options);
    FirstLine(auto, options);
    TwoLines(u, x4);
    FirstLine(filename, (u + "\n\n") + x4);
  }

  /** The eight lines in front of the options, as the splits above put them together. */
  lemma HeadOfLines(a: string, b: string, c: string, d: string, e: string, rest: seq<string>)
    ensures var lines := [a, ""] + ([b, ""] + ([c] + ([d, ""] + ([e] + rest))));
            |lines| >= 8 && lines[..8] == [a, "", b, "", c, d, "", e]
  {
    var lines := [a, ""] + ([b, ""] + ([c] + ([d, ""] + ([e] + rest))));
    assert lines[0] == a && lines[1] == "" && lines[2] == b && lines[3] == "";
    assert lines[4] == c && lines[5] == d && lines[6] == "" && lines[7] == e;
  }

  /** The label line: a line ending in `:` followed by an empty line. */
  lemma LabelLines(head: string, rest: string)
    requires '\n' !in head
    ensures Split(head + ":\n\n" + rest, "\n") == [head + ":", ""] + Split(rest, "\n")
  {
    AppendAssoc(head, ":", "\n\n");
    assert ":" + "\n\n" == ":\n\n";
    TwoLines(head + ":", rest);
  }

  /** Splitting a line followed by an empty line cuts after both. */
  lemma TwoLines(line: string, rest: string)
    requires '\n' !in line
    ensures Split(line + "\n\n" + rest, "\n") == [line, ""] + Split(rest, "\n")
  {
    AppendAssoc(line + "\n", "\n", rest);
    assert line + "\n" + "\n" == line + "\n\n";
    FirstLine(line, "\n" + rest);
    assert "" + "\n" + rest == "\n" + rest;
    FirstLine("", rest);
  }

  /** The reference sheets of one package, added to `files`. */
  function RefSheets(files: map<DocPath, string>, package: string, subs: seq<string>): map<DocPath, string> {
    if subs == [] then files
    else
      var s := subs[|subs| - 1];
      var m := RefSheets(files, package, subs[..|subs| - 1]);
      if s !in SkipSubPackages then m[RefSheet(package, s) := RefSheetText(package, s)] else m
  }

  /** The sub-packages of a package, collected from the listing of its
      directory as the source does. */
  function Subs(package: string, listdir: string -> seq<string>, dirs: set<string>): seq<string> {
    SubPackagesAsWritten(listdir(Up(package)), dirs)
  }

  /** The packages that have sub-packages, in package order. */
  function Documented(packages: seq<string>, listdir: string -> seq<string>, dirs: set<string>): seq<string> {
    if packages == [] then []
    else
      var p := packages[|packages| - 1];
      Documented(packages[..|packages| - 1], listdir, dirs) + (if Subs(p, listdir, dirs) != [] then [p] else [])
  }

  function IndexLines(packages: seq<string>): string {
    if packages == [] then ""
    else IndexLines(packages[..|packages| - 1]) + IndexLine(packages[|packages| - 1])
  }

  /** What one package adds to the tree: nothing without sub-packages, else
      its reference sheets and its package file. */
  function AddPackage(files: map<DocPath, string>, p: string, listdir: string -> seq<string>, dirs: set<string>): map<DocPath, string> {
    var subs := Subs(p, listdir, dirs);
    if subs != [] then RefSheets(files, p, subs)[PackageFile(p) := PackageText(p, subs)] else files
  }

  /** The line one package adds to the top-level index. */
  function IndexEntry(p: string, listdir: string -> seq<string>, dirs: set<string>): string {
    if Subs(p, listdir, dirs) != [] then IndexLine(p) else ""
  }

  /** The package files and reference sheets of the given packages. */
  function PackageFiles(packages: seq<string>, listdir: string -> seq<string>, dirs: set<string>): map<DocPath, string> {
    if packages == [] then map[]
    else AddPackage(PackageFiles(packages[..|packages| - 1], listdir, dirs), packages[|packages| - 1], listdir, dirs)
  }

  /** The whole tree written for a package list. */
  function SrcTree(packages: seq<string>, listdir: string -> seq<string>, dirs: set<string>): map<DocPath, string> {
    PackageFiles(packages, listdir, dirs)[IndexFile := IndexTop + IndexLines(Documented(packages, listdir, dirs))]
  }

  lemma {:induction false} DocumentedMembers(packages: seq<string>, listdir: string -> seq<string>, dirs: set<string>, p: string)
    ensures p in Documented(packages, listdir, dirs) <==> p in packages && Subs(p, listdir, dirs) != []
    decreases |packages|
  {
    if packages != [] {
      var init := packages[..|packages| - 1];
      DocumentedMembers(init, listdir, dirs, p);
      assert packages == init + [packages[|packages| - 1]];
    }
  }

  /** `d` is one of the reference sheets written for `package`. */
  predicate SheetOf(d: DocPath, package: string, subs: seq<string>) {
    d.RefSheet? && d.package == package && d.sub in subs && d.sub !in SkipSubPackages
  }

  lemma {:induction false} RefSheetsKeys(files: map<DocPath, string>, package: string, subs: seq<string>, d: DocPath)
    ensures d in RefSheets(files, package, subs) <==> d in files || SheetOf(d, package, subs)
    ensures d in RefSheets(files, package, subs)
            ==> RefSheets(files, package, subs)[d] == if SheetOf(d, package, subs) then RefSheetText(d.package, d.sub) else files[d]
    decreases |subs|
  {
    if subs != [] {
      var init := subs[..|subs| - 1];
      RefSheetsKeys(files, package, init, d);
      assert subs == init + [subs[|subs| - 1]];
    }
  }

  /** The tree holds a package's file exactly when the package has
      sub-packages, and the file then lists them. */
  lemma {:induction false} PackageFilePresent(packages: seq<string>, listdir: string -> seq<string>, dirs: set<string>, p: string)
    ensures PackageFile(p) in PackageFiles(packages, listdir, dirs) <==> p in packages && Subs(p, listdir, dirs) != []
    ensures PackageFile(p) in PackageFiles(packages, listdir, dirs)
            ==> PackageFiles(packages, listdir, dirs)[PackageFile(p)] == PackageText(p, Subs(p, listdir, dirs))
    decreases |packages|
  {
    if packages != [] {
      var init := packages[..|packages| - 1];
      var q := packages[|packages| - 1];
      PackageFilePresent(init, listdir, dirs, p);
      AddPackageFile(PackageFiles(init, listdir, dirs), q, listdir, dirs, p);
      assert p in packages <==> p in init || p == q by {
        assert packages == init + [q];
      }
    }
  }

  /** What one package adds to the tree, as far as package files go. */
  lemma AddPackageFile(m: map<DocPath, string>, q: string, listdir: string -> seq<string>, dirs: set<string>, p: string)
    ensures PackageFile(p) in AddPackage(m, q, listdir, dirs)
        <==> PackageFile(p) in m || (p == q && Subs(q, listdir, dirs) != [])
    ensures PackageFile(p) in AddPackage(m, q, listdir, dirs)
            ==> AddPackage(m, q, listdir, dirs)[PackageFile(p)]
                == (if p == q && Subs(q, listdir, dirs) != [] then PackageText(p, Subs(p, listdir, dirs)) else m[PackageFile(p)])
  {
    RefSheetsKeys(m, q, Subs(q, listdir, dirs), PackageFile(p));
  }

  /** The tree holds a reference sheet for exactly the sub-packages of the
      packages listed, except the skipped ones; `nn_interpolators` never gets one. */
  lemma {:induction false} RefSheetPresent(packages: seq<string>, listdir: string -> seq<string>, dirs: set<string>, p: string, s: string)
    ensures RefSheet(p, s) in PackageFiles(packages, listdir, dirs)
        <==> p in packages && s in Subs(p, listdir, dirs) && s !in SkipSubPackages
    decreases |packages|
  {
    if packages != [] {
      var init := packages[..|packages| - 1];
      var q := packages[|packages| - 1];
      RefSheetPresent(init, listdir, dirs, p, s);
      RefSheetsKeys(PackageFiles(init, listdir, dirs), q, Subs(q, listdir, dirs), RefSheet(p, s));
      assert packages == init + [q];
    }
  }

  /** Every reference sheet in the tree is the one for its sub-package. */
  lemma {:induction false} RefSheetValue(packages: seq<string>, listdir: string -> seq<string>, dirs: set<string>, p: string, s: string)
    requires RefSheet(p, s) in PackageFiles(packages, listdir, dirs)
    ensures PackageFiles(packages, listdir, dirs)[RefSheet(p, s)] == RefSheetText(p, s)
    decreases |packages|
  {
    var init := packages[..|packages| - 1];
    var q := packages[|packages| - 1];
    var m := PackageFiles(init, listdir, dirs);
    var subs := Subs(q, listdir, dirs);
    if subs != [] {
      RefSheetsKeys(m, q, subs, RefSheet(p, s));
      if !SheetOf(RefSheet(p, s), q, subs) {
        RefSheetValue(init, listdir, dirs, p, s);
      }
    } else {
      RefSheetValue(init, listdir, dirs, p, s);
    }
  }

  /** The top-level index names a package exactly when the package has its
      own file in the tree. */
  lemma IndexMatchesPackageFiles(packages: seq<string>, listdir: string -> seq<string>, dirs: set<string>, p: string)
    ensures p in Documented(packages, listdir, dirs) <==> PackageFile(p) in SrcTree(packages, listdir, dirs)
  {
    DocumentedMembers(packages, listdir, dirs, p);
    PackageFilePresent(packages, listdir, dirs, p);
  }

  lemma SubLinesSnoc(package: string, subs: seq<string>, k: nat)
    requires k < |subs|
    ensures SubLines(package, subs[..k + 1])
         == SubLines(package, subs[..k]) + (if subs[k] !in SkipSubPackages then SubLine(package, subs[k]) else "")
  {
    assert subs[..k + 1][..k] == subs[..k];
  }

  lemma RefSheetsSnoc(files: map<DocPath, string>, package: string, subs: seq<string>, k: nat)
    requires k < |subs|
    ensures RefSheets(files, package, subs[..k + 1])
         == if subs[k] !in SkipSubPackages
            then RefSheets(files, package, subs[..k])[RefSheet(package, subs[k]) := RefSheetText(package, subs[k])]
            else RefSheets(files, package, subs[..k])
  {
    assert subs[..k + 1][..k] == subs[..k];
  }

  lemma PackagesSnoc(packages: seq<string>, listdir: string -> seq<string>, dirs: set<string>, i: nat)
    requires i < |packages|
    ensures PackageFiles(packages[..i + 1], listdir, dirs) == AddPackage(PackageFiles(packages[..i], listdir, dirs), packages[i], listdir, dirs)
    ensures Documented(packages[..i + 1], listdir, dirs)
         == Documented(packages[..i], listdir, dirs) + (if Subs(packages[i], listdir, dirs) != [] then [packages[i]] else [])
  {
    assert packages[..i + 1][..i] == packages[..i];
  }

  lemma IndexLinesSnoc(packages: seq<string>, p: string)
    ensures IndexLines(packages + [p]) == IndexLines(packages) + IndexLine(p)
  {
    assert (packages + [p])[..|packages|] == packages;
  }

  /** The index after one more package: the line that package adds. */
  lemma IndexStep(top: string, packages: seq<string>, listdir: string -> seq<string>, dirs: set<string>, i: nat)
    requires i < |packages|
    ensures top + IndexLines(Documented(packages[..i + 1], listdir, dirs))
         == top + IndexLines(Documented(packages[..i], listdir, dirs)) + IndexEntry(packages[i], listdir, dirs)
  {
    var d := Documented(packages[..i], listdir, dirs);
    PackagesSnoc(packages, listdir, dirs, i);
    if Subs(packages[i], listdir, dirs) != [] {
      IndexLinesSnoc(d, packages[i]);
      AppendAssoc(top, IndexLines(d), IndexLine(packages[i]));
    } else {
      assert d + [] == d;
    }
  }

  /** Six writes appended one after another give the same text however they are grouped. */
  lemma Regroup(a: string, b: string, c: string, d: string, e: string, f: string)
    ensures a + b + c + d + e + f == a + (b + (c + (d + (e + f))))
  {
    AppendAssoc(a + b + c + d, e, f);
    AppendAssoc(a + b + c, d, e + f);
    AppendAssoc(a + b, c, d + (e + f));
    AppendAssoc(a, b, c + (d + (e + f)));
  }

  /** The `srcdocs` tree. */
  class SrcDocs {
    var files: map<DocPath, string>

    constructor ()
      ensures files == map[]
    {
      files := map[];
    }

    /** One reference sheet, written line by line. */
    static method WriteRefSheet(package: string, sub: string) returns (refSheet: string)
      ensures refSheet == RefSheetText(package, sub)
    {
      var packageName := "openmdao." + package;
      var filename := sub + ".py";
      ghost var w1 := ".. index:: " + filename + "\n\n";
      ghost var w2 := ".. _" + packageName + "." + filename + ":\n\n";
      ghost var w3 := filename + "\n";
      ghost var w4 := Repeat('+', |filename|) + "\n\n";
      ghost var w5 := ".. automodule:: " + packageName + "." + sub;
      refSheet := ".. index:: " + filename + "\n\n";
      refSheet := refSheet + (".. _" + packageName + "." + filename + ":\n\n");
      refSheet := refSheet + (filename + "\n");
      refSheet := refSheet + (Repeat('+', |filename|) + "\n\n");
      refSheet := refSheet + (".. automodule:: " + packageName + "." + sub);
      refSheet := refSheet + RefSheetBottom;
      Regroup(w1, w2, w3, w4, w5, RefSheetBottom);
    }

    /** The package file and reference sheets of one package with sub-packages. */
    method WritePackage(package: string, subPackages: seq<string>)
      modifies this
      ensures files == RefSheets(old(files), package, subPackages)[PackageFile(package) := PackageText(package, subPackages)]
    {
      var packageName := "openmdao." + package;
      var packageFile := packageName + "\n" + Repeat('-', |packageName|) + "\n" + PackageTop;
      ghost var top := packageFile;
      assert top == Heading(packageName, '-') + PackageTop;
      var k := 0;
      while k < |subPackages|
        invariant 0 <= k <= |subPackages|
        invariant files == RefSheets(old(files), package, subPackages[..k])
        invariant packageFile == top + SubLines(package, subPackages[..k])
      {
        var sub := subPackages[k];
        SubLinesSnoc(package, subPackages, k);
        RefSheetsSnoc(old(files), package, subPackages, k);
        if sub !in SkipSubPackages {
          AppendAssoc(top, SubLines(package, subPackages[..k]), SubLine(package, sub));
          packageFile := packageFile + SubLine(package, sub);
          var refSheet := WriteRefSheet(package, sub);
          files := files[RefSheet(package, sub) := refSheet];
        }
        k := k + 1;
      }
      assert subPackages[..k] == subPackages;
      packageFile := packageFile + PackageBottom;
      files := files[PackageFile(package) := packageFile];
    }

    /** One iteration of the package loop: list the package's sub-packages
        and, if there are any, write its files; the index line to add is
        returned. */
    method DocumentPackage(package: string, listdir: string -> seq<string>, dirs: set<string>) returns (indexLine: string)
      modifies this
      ensures indexLine == IndexEntry(package, listdir, dirs)
      ensures files == AddPackage(old(files), package, listdir, dirs)
    {
      var subPackages := ListSubPackages(listdir(Up(package)), dirs);
      indexLine := "";
      if |subPackages| > 0 {
        indexLine := IndexLine(package);
        WritePackage(package, subPackages);
      }
    }

    /** `generate_docs`: the `srcdocs` tree is removed and written anew. */
    method GenerateDocs(listing: seq<string>, listdir: string -> seq<string>, dirs: set<string>)
      modifies this
      ensures files == SrcTree(PackageList(listing, dirs), listdir, dirs)
    {
      files := map[];
      var packages := ListPackages(listing, dirs);
      var index := IndexTop;
      ghost var top := index;
      var i := 0;
      while i < |packages|
        invariant 0 <= i <= |packages|
        invariant files == PackageFiles(packages[..i], listdir, dirs)
        invariant index == top + IndexLines(Documented(packages[..i], listdir, dirs))
      {
        var indexLine := DocumentPackage(packages[i], listdir, dirs);
        index := index + indexLine;
        PackagesSnoc(packages, listdir, dirs, i);
        IndexStep(top, packages, listdir, dirs, i);
        i := i + 1;
      }
      assert packages[..i] == packages;
      files := files[IndexFile := index];
    }
  }
}
