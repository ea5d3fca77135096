/** The tag pre-processing of the documentation build (openmdao/docs/conf.py):
    every documentation file is searched for a `.. tags::` directive, the
    directive's text is cut into a list of tags, and the tag directory gets
    one file per tag holding a header and one link line per tagged file.
    The directory is modelled as a map from file name to contents; the files
    to scan are given as a sequence of (path, text) pairs in walk order. */
module TagIndex {
  import opened PyStr

  /** `.` in a pattern compiled without DOTALL: any character but a newline. */
  predicate Wildcard(c: char) {
    c != '\n'
  }

  /** The head of the pattern `".. tags::.*$"` matches at `p`: two wildcards
      (the dots are not escaped), then the literal text " tags::". */
  predicate HeadAt(text: string, p: nat) {
    p + 9 <= |text| && Wildcard(text[p]) && Wildcard(text[p + 1]) && text[p + 2..p + 9] == " tags::"
  }

  /** How far `.*` reaches from `q`: the first newline at or after `q`, or the end. */
  function LineEnd(text: string, q: nat): (e: nat)
    requires q <= |text|
    decreases |text| - q
    ensures q <= e <= |text|
    ensures e < |text| ==> text[e] == '\n'
    ensures forall k :: q <= k < e ==> text[k] != '\n'
  {
    if q == |text| || text[q] == '\n' then q else LineEnd(text, q + 1)
  }

  /** Where a match of `".. tags::.*$"` that starts at `p` ends, if there is
      one. Without MULTILINE, `$` holds only at the end of the text or just
      before a newline that ends the text, so the greedy `.*` must reach one
      of those two places. */
  function MatchEnd(text: string, p: nat): (r: Option<nat>)
    ensures r.Some? ==> p + 9 <= r.value <= |text|
  {
    if !HeadAt(text, p) then None
    else
      var e := LineEnd(text, p + 9);
      if e == |text| || e == |text| - 1 then Some(e) else None
  }

  /** `re.findall(".. tags::.*$", text[p..])` as Python scans: try each
      position in turn, and after a match go on from where it ended. */
  function FindAllFrom(text: string, p: nat): (r: seq<string>)
    decreases |text| - p
    ensures forall m :: m in r ==> |m| >= 9
  {
    if p + 9 > |text| then []
    else
      match MatchEnd(text, p)
      case Some(e) => [text[p..e]] + FindAllFrom(text, e)
      case None => FindAllFrom(text, p + 1)
  }

  function FindAll(text: string): seq<string> {
    FindAllFrom(text, 0)
  }

  /** The leftmost position at or after `p` where a match starts. */
  function FirstMatch(text: string, p: nat): (r: Option<nat>)
    decreases |text| - p
    ensures r.Some? ==> p <= r.value && MatchEnd(text, r.value).Some?
    ensures r.Some? ==> forall q :: p <= q < r.value ==> MatchEnd(text, q).None?
    ensures r.None? ==> forall q :: p <= q ==> MatchEnd(text, q).None?
  {
    if p + 9 > |text| then None
    else if MatchEnd(text, p).Some? then Some(p)
    else FirstMatch(text, p + 1)
  }

  /** findall from `p` returns the leftmost match and nothing else: once a
      match is found it ends the text (or stops before a final newline), so
      no room is left for a second one. */
  lemma {:induction false} FindAllFromFirst(text: string, p: nat)
    ensures FindAllFrom(text, p) == match FirstMatch(text, p)
                                    case None => []
                                    case Some(q) => [text[q..MatchEnd(text, q).value]]
    decreases |text| - p
  {
    if p + 9 <= |text| {
      match MatchEnd(text, p)
      case Some(e) =>
        assert FindAllFrom(text, e) == [];
      case None =>
        FindAllFromFirst(text, p + 1);
    }
  }

  /** A file holds at most one directive: the leftmost place where the
      pattern matches, if any. The directive found holds no newline and ends
      the file, possibly before a final newline. */
  lemma AtMostOneDirective(text: string)
    ensures |FindAll(text)| <= 1
    ensures FindAll(text) == [] <==> forall q :: MatchEnd(text, q).None?
    ensures forall m :: m in FindAll(text) ==>
              HeadAt(m, 0) && '\n' !in m && (EndsWith(text, m) || EndsWith(text, m + "\n"))
  {
    FindAllFromFirst(text, 0);
    match FirstMatch(text, 0)
    case None =>
    case Some(q) =>
      DirectiveShape(text, q);
  }

  /** A match starting at `q` is a one-line directive that ends the file. */
  lemma DirectiveShape(text: string, q: nat)
    requires MatchEnd(text, q).Some?
    ensures var m := text[q..MatchEnd(text, q).value];
            HeadAt(m, 0) && '\n' !in m && (EndsWith(text, m) || EndsWith(text, m + "\n"))
  {
    var e := MatchEnd(text, q).value;
    assert e == LineEnd(text, q + 9);
    var m := text[q..e];
    assert m[2..9] == text[q + 2..q + 9];
    assert m[0] == text[q] && m[1] == text[q + 1];
    forall k | 0 <= k < |m| ensures m[k] != '\n' {
      assert m[k] == text[q + k];
      if 2 <= k < 9 {
        assert text[q + k] == text[q + 2..q + 9][k - 2];
      }
    }
    if e == |text| {
      assert text[|text| - |m|..] == m;
    } else {
      assert text[e] == '\n';
      assert text[e..] == "\n";
      assert text[q..] == m + text[e..];
      assert |text| - |m + "\n"| == q;
    }
  }

  /** The characters `str.lstrip(".. tags::")` removes: a set, not a prefix. */
  const StripSet: set<char> := {'.', ' ', 't', 'a', 'g', 's', ':'}

  /** The tag list exactly as the source computes it from a directive:
      `match.lstrip(".. tags::").split(", ")`. */
  function TagListAsWritten(directive: string): seq<string> {
    Split(LStrip(directive, StripSet), ", ")
  }

  /** The tag list the directive evidently means: the text after the
      nine-character head `.. tags::`, without leading blanks, cut at ", ". */
  function TagList(directive: string): seq<string>
    requires |directive| >= 9
  {
    Split(LStrip(directive[9..], {' '}), ", ")
  }

  /** As written, joining the tags back gives the directive with every leading
      character of the strip set removed, and no tag holds ", ". */
  lemma TagListAsWrittenShape(directive: string)
    ensures Join(TagListAsWritten(directive), ", ") == LStrip(directive, StripSet)
    ensures forall t, j :: t in TagListAsWritten(directive) ==> !OccursAt(t, ", ", j)
    ensures var t0 := TagListAsWritten(directive)[0]; t0 == [] || t0[0] !in StripSet
  {
    var s := LStrip(directive, StripSet);
    JoinSplit(s, ", ");
    SplitPiecesFree(s, ", ");
    SplitFirstPrefix(s, ", ");
  }

  /** The intended tag list joins back to the text after the directive's head
      and its blanks, and no tag holds ", ". */
  lemma TagListShape(directive: string)
    requires |directive| >= 9
    ensures Join(TagList(directive), ", ") == LStrip(directive[9..], {' '})
    ensures forall t, j :: t in TagList(directive) ==> !OccursAt(t, ", ", j)
  {
    var s := LStrip(directive[9..], {' '});
    JoinSplit(s, ", ");
    SplitPiecesFree(s, ", ");
  }

  lemma StripSolvers()
    ensures LStrip(".. tags:: solvers", StripSet) == "olvers"
  {
    var d := ".. tags:: solvers";
    LStripUnique(d, StripSet, 11);
    assert d[11..] == "olvers";
  }

  lemma StripBlankSolvers()
    ensures LStrip(" solvers", {' '}) == "solvers"
  {
    LStripUnique(" solvers", {' '}, 1);
    assert " solvers"[1..] == "solvers";
  }

  lemma SplitSolvers()
    ensures Split("olvers", ", ") == ["olvers"]
    ensures Split("solvers", ", ") == ["solvers"]
  {
    SplitNoSep("olvers", ", ");
    SplitNoSep("solvers", ", ");
  }

  lemma SolversAsWritten()
    ensures TagListAsWritten(".. tags:: solvers") == ["olvers"]
  {
    StripSolvers();
    SplitSolvers();
  }

  lemma SolversIntended()
    ensures TagList(".. tags:: solvers") == ["solvers"]
  {
    var d := ".. tags:: solvers";
    assert d[9..] == " solvers";
    StripBlankSolvers();
    SplitSolvers();
  }

  /** The character-set strip eats the start of a tag that begins with one of
      `t a g s . :`: `.. tags:: solvers` is tagged `olvers`. */
  lemma StripEatsTag()
    ensures TagListAsWritten(".. tags:: solvers") == ["olvers"]
    ensures TagList(".. tags:: solvers") == ["solvers"]
  {
    SolversAsWritten();
    SolversIntended();
  }

  /** A directive on which the strip as written and the intended cut agree:
      its nine-character head is made of strip-set characters (as the literal
      `.. tags::` is), and its first tag does not begin with one. */
  predicate CleanDirective(directive: string) {
    |directive| >= 9
    && (forall k :: 0 <= k < 9 ==> directive[k] in StripSet)
    && var rest := LStrip(directive[9..], {' '}); rest == [] || rest[0] !in StripSet
  }

  /** The two tag lists agree on a clean directive. */
  lemma TagListAgrees(directive: string)
    requires CleanDirective(directive)
    ensures TagListAsWritten(directive) == TagList(directive)
  {
    var tail := directive[9..];
    var rest := LStrip(tail, {' '});
    var n := 9 + (|tail| - |rest|);
    forall k | 0 <= k < n ensures directive[k] in StripSet {
      if k >= 9 {
        assert directive[k] == tail[k - 9];
      }
    }
    assert directive[n..] == rest;
    LStripUnique(directive, StripSet, n);
  }

  /** One file of the documentation tree, at `path`, with contents `text`. */
  datatype Doc = Doc(path: string, text: string)

  /** One tag of one directive, found in the file `source`. */
  datatype Occurrence = Occurrence(tag: string, source: string)

  /** The name of a tag's file inside the tag directory. */
  function TagFile(tag: string): string {
    tag + ".rst"
  }

  lemma TagFileInjective(a: string, b: string)
    ensures TagFile(a) == TagFile(b) <==> a == b
  {
    if TagFile(a) == TagFile(b) {
      assert a == TagFile(a)[..|a|];
      assert b == TagFile(b)[..|b|];
    }
  }

  const Rule: string := "========================="

  /** The header written into a tag's file when the tag is first seen. */
  function Header(tag: string): string {
    "\n" + Rule + "\n" + tag + "\n" + Rule + "\n\n  .. toctree::\n     :titlesonly:\n\n"
  }

  /** The line appended to a tag's file for each file carrying the tag. */
  function Link(source: string): string {
    "     ../" + source + "\n"
  }

  /** One occurrence per tag of a directive, each naming the file it was found in. */
  function TagOccurrences(tags: seq<string>, source: string): seq<Occurrence> {
    seq(|tags|, k requires 0 <= k < |tags| => Occurrence(tags[k], source))
  }

  /** The tags of the directives of one file, as the source extracts them. */
  function MatchOccurrences(matches: seq<string>, source: string): seq<Occurrence> {
    if matches == [] then []
    else MatchOccurrences(matches[..|matches| - 1], source)
         + TagOccurrences(TagListAsWritten(matches[|matches| - 1]), source)
  }

  /** Every tag of every directive of every file, in scan order. */
  function Occurrences(docs: seq<Doc>): seq<Occurrence> {
    if docs == [] then []
    else
      var d := docs[|docs| - 1];
      Occurrences(docs[..|docs| - 1]) + MatchOccurrences(FindAll(d.text), d.path)
  }

  /** The tags of the directives of one file, cut as intended. */
  function IntendedMatchOccurrences(matches: seq<string>, source: string): seq<Occurrence>
    requires forall j :: 0 <= j < |matches| ==> |matches[j]| >= 9
  {
    if matches == [] then []
    else IntendedMatchOccurrences(matches[..|matches| - 1], source)
         + TagOccurrences(TagList(matches[|matches| - 1]), source)
  }

  /** Every tag of every directive of every file, cut as intended. */
  function IntendedOccurrences(docs: seq<Doc>): seq<Occurrence> {
    if docs == [] then []
    else
      var d := docs[|docs| - 1];
      IntendedOccurrences(docs[..|docs| - 1]) + IntendedMatchOccurrences(FindAll(d.text), d.path)
  }

  /** On clean directives, the tags as written are the intended ones. */
  lemma {:induction false} MatchOccurrencesAgree(matches: seq<string>, source: string)
    requires forall j :: 0 <= j < |matches| ==> |matches[j]| >= 9 && CleanDirective(matches[j])
    ensures MatchOccurrences(matches, source) == IntendedMatchOccurrences(matches, source)
    decreases |matches|
  {
    if matches != [] {
      var n := |matches| - 1;
      CleanPrefix(matches, n);
      MatchOccurrencesAgree(matches[..n], source);
      TagListAgrees(matches[n]);
    }
  }

  lemma CleanPrefix(matches: seq<string>, n: nat)
    requires n <= |matches|
    requires forall j :: 0 <= j < |matches| ==> |matches[j]| >= 9 && CleanDirective(matches[j])
    ensures forall j :: 0 <= j < n ==> |matches[..n][j]| >= 9 && CleanDirective(matches[..n][j])
  {
  }

  /** When every directive of every file is clean, the source's scan records
      exactly the intended occurrences. */
  lemma {:induction false} OccurrencesAgree(docs: seq<Doc>)
    requires forall i, m :: 0 <= i < |docs| && m in FindAll(docs[i].text) ==> CleanDirective(m)
    ensures Occurrences(docs) == IntendedOccurrences(docs)
    decreases |docs|
  {
    if docs != [] {
      var init := docs[..|docs| - 1];
      forall i, m | 0 <= i < |init| && m in FindAll(init[i].text) ensures CleanDirective(m) {
        assert init[i] == docs[i];
      }
      OccurrencesAgree(init);
      var d := docs[|docs| - 1];
      forall j | 0 <= j < |FindAll(d.text)| ensures |FindAll(d.text)[j]| >= 9 && CleanDirective(FindAll(d.text)[j]) {
        assert FindAll(d.text)[j] in FindAll(d.text);
      }
      MatchOccurrencesAgree(FindAll(d.text), d.path);
    }
  }

  /** What one occurrence does to the tag directory: a header if the tag's
      file does not exist yet, then a link line. */
  function Record(files: map<string, string>, o: Occurrence): map<string, string> {
    var f := TagFile(o.tag);
    files[f := (if f in files then files[f] else Header(o.tag)) + Link(o.source)]
  }

  function TagFiles(files: map<string, string>, occs: seq<Occurrence>): map<string, string> {
    if occs == [] then files
    else Record(TagFiles(files, occs[..|occs| - 1]), occs[|occs| - 1])
  }

  /** The link lines of the occurrences of `tag`, in order. */
  function Links(tag: string, occs: seq<Occurrence>): string {
    if occs == [] then ""
    else
      var o := occs[|occs| - 1];
      Links(tag, occs[..|occs| - 1]) + (if o.tag == tag then Link(o.source) else "")
  }

  lemma {:induction false} LinksNone(tag: string, occs: seq<Occurrence>)
    requires forall k :: 0 <= k < |occs| ==> occs[k].tag != tag
    ensures Links(tag, occs) == ""
    decreases |occs|
  {
    if occs != [] {
      LinksNone(tag, occs[..|occs| - 1]);
    }
  }

  /** A tag's file exists afterwards exactly when it existed before or the tag
      occurs. */
  lemma {:induction false} TagFileExists(files: map<string, string>, occs: seq<Occurrence>, tag: string)
    ensures TagFile(tag) in TagFiles(files, occs)
        <==> TagFile(tag) in files || exists k :: 0 <= k < |occs| && occs[k].tag == tag
    decreases |occs|
  {
    if occs != [] {
      var init := occs[..|occs| - 1];
      TagFileExists(files, init, tag);
      TagFileInjective(occs[|occs| - 1].tag, tag);
      OccursSnoc(occs, init, tag);
    }
  }

  /** The tag occurs in a run exactly when it occurs before its last element or in it. */
  lemma OccursSnoc(occs: seq<Occurrence>, init: seq<Occurrence>, tag: string)
    requires occs != [] && init == occs[..|occs| - 1]
    ensures (exists k :: 0 <= k < |occs| && occs[k].tag == tag)
        <==> (exists k :: 0 <= k < |init| && init[k].tag == tag) || occs[|occs| - 1].tag == tag
  {
    if exists k :: 0 <= k < |occs| && occs[k].tag == tag {
      var k :| 0 <= k < |occs| && occs[k].tag == tag;
      if k < |init| {
        assert init[k].tag == tag;
      }
    }
    if exists k :: 0 <= k < |init| && init[k].tag == tag {
      var k :| 0 <= k < |init| && init[k].tag == tag;
      assert occs[k].tag == tag;
    }
  }

  /** A tag's file then holds what it held before (or, if it is new, the
      header, written once) followed by one link line per occurrence of the
      tag, in scan order. */
  lemma {:induction false} TagFileContents(files: map<string, string>, occs: seq<Occurrence>, tag: string)
    requires TagFile(tag) in TagFiles(files, occs)
    ensures TagFiles(files, occs)[TagFile(tag)]
         == (if TagFile(tag) in files then files[TagFile(tag)] else Header(tag)) + Links(tag, occs)
    decreases |occs|
  {
    if occs != [] {
      var init := occs[..|occs| - 1];
      var o := occs[|occs| - 1];
      TagFileInjective(o.tag, tag);
      if o.tag == tag {
        if TagFile(tag) in TagFiles(files, init) {
          TagFileContents(files, init, tag);
          LinkAppended(files, init, o, tag);
        } else {
          TagFileExists(files, init, tag);
          LinksNone(tag, init);
          FirstLink(files, init, o, tag);
        }
      } else {
        TagFileContents(files, init, tag);
      }
    }
  }

  /** The step of TagFileContents where the tag's file already exists. */
  lemma LinkAppended(files: map<string, string>, init: seq<Occurrence>, o: Occurrence, tag: string)
    requires o.tag == tag
    requires TagFile(tag) in TagFiles(files, init)
    requires TagFiles(files, init)[TagFile(tag)]
          == (if TagFile(tag) in files then files[TagFile(tag)] else Header(tag)) + Links(tag, init)
    ensures TagFiles(files, init + [o])[TagFile(tag)]
         == (if TagFile(tag) in files then files[TagFile(tag)] else Header(tag)) + Links(tag, init + [o])
  {
    var base := if TagFile(tag) in files then files[TagFile(tag)] else Header(tag);
    var prev := TagFiles(files, init);
    TagFilesSnoc(files, init, o);
    assert Record(prev, o)[TagFile(tag)] == prev[TagFile(tag)] + Link(o.source);
    LinksSnoc(tag, init, o);
    AppendAssoc(base, Links(tag, init), Link(o.source));
  }

  /** The step of TagFileContents where the tag is seen for the first time. */
  lemma FirstLink(files: map<string, string>, init: seq<Occurrence>, o: Occurrence, tag: string)
    requires o.tag == tag
    requires TagFile(tag) !in files && TagFile(tag) !in TagFiles(files, init)
    requires Links(tag, init) == ""
    ensures TagFiles(files, init + [o])[TagFile(tag)] == Header(tag) + Links(tag, init + [o])
  {
    TagFilesSnoc(files, init, o);
    LinksSnoc(tag, init, o);
  }

  lemma LinksSnoc(tag: string, occs: seq<Occurrence>, o: Occurrence)
    ensures Links(tag, occs + [o]) == Links(tag, occs) + (if o.tag == tag then Link(o.source) else "")
  {
    assert (occs + [o])[..|occs|] == occs;
  }

  lemma {:induction false} TagFilesKeys(files: map<string, string>, occs: seq<Occurrence>, f: string)
    requires f in TagFiles(files, occs)
    ensures f in files || exists k :: 0 <= k < |occs| && f == TagFile(occs[k].tag)
    decreases |occs|
  {
    if occs != [] {
      var init := occs[..|occs| - 1];
      if f != TagFile(occs[|occs| - 1].tag) {
        TagFilesKeys(files, init, f);
        if f !in files {
          var k :| 0 <= k < |init| && f == TagFile(init[k].tag);
          assert occs[k] == init[k];
        }
      }
    }
  }

  lemma TagFilesSnoc(files: map<string, string>, occs: seq<Occurrence>, o: Occurrence)
    ensures TagFiles(files, occs + [o]) == Record(TagFiles(files, occs), o)
  {
    assert (occs + [o])[..|occs|] == occs;
  }

  /** Recording a concatenation of occurrences is recording one part, then the other. */
  lemma {:induction false} TagFilesAppend(files: map<string, string>, a: seq<Occurrence>, b: seq<Occurrence>)
    ensures TagFiles(files, a + b) == TagFiles(TagFiles(files, a), b)
    decreases |b|
  {
    if b == [] {
      assert a + b == a;
    } else {
      var bi := b[..|b| - 1];
      var o := b[|b| - 1];
      assert a + b == (a + bi) + [o];
      TagFilesSnoc(files, a + bi, o);
      TagFilesAppend(files, a, bi);
      TagFilesSnoc(TagFiles(files, a), bi, o);
      assert bi + [o] == b;
    }
  }

  lemma TagOccurrencesSnoc(tags: seq<string>, k: nat, source: string)
    requires k < |tags|
    ensures TagOccurrences(tags[..k + 1], source)
         == TagOccurrences(tags[..k], source) + [Occurrence(tags[k], source)]
  {
  }

  lemma MatchOccurrencesSnoc(matches: seq<string>, j: nat, source: string)
    requires j < |matches|
    ensures MatchOccurrences(matches[..j + 1], source)
         == MatchOccurrences(matches[..j], source) + TagOccurrences(TagListAsWritten(matches[j]), source)
  {
    assert matches[..j + 1][..j] == matches[..j];
  }

  lemma OccurrencesSnoc(docs: seq<Doc>, i: nat)
    requires i < |docs|
    ensures Occurrences(docs[..i + 1])
         == Occurrences(docs[..i]) + MatchOccurrences(FindAll(docs[i].text), docs[i].path)
  {
    assert docs[..i + 1][..i] == docs[..i];
  }

  /** The tag directory: file name to contents. */
  class TagDir {
    var files: map<string, string>

    /** `make_tagdir`: the directory is removed and created again, empty. */
    constructor ()
      ensures files == map[]
    {
      files := map[];
    }

    /** One tag of one file: write the header if the tag's file is new, then
        append the link line. */
    method RecordTag(tag: string, sourcefile: string)
      modifies this
      ensures files == Record(old(files), Occurrence(tag, sourcefile))
    {
      var filepath := TagFile(tag);
      if filepath !in files {
        files := files[filepath := Header(tag)];
      }
      files := files[filepath := files[filepath] + Link(sourcefile)];
    }

    /** The tags of one directive, in order. */
    method RecordTags(taglist: seq<string>, sourcefile: string)
      modifies this
      ensures files == TagFiles(old(files), TagOccurrences(taglist, sourcefile))
    {
      var k := 0;
      while k < |taglist|
        invariant 0 <= k <= |taglist|
        invariant files == TagFiles(old(files), TagOccurrences(taglist[..k], sourcefile))
      {
        RecordTag(taglist[k], sourcefile);
        TagOccurrencesSnoc(taglist, k, sourcefile);
        TagFilesSnoc(old(files), TagOccurrences(taglist[..k], sourcefile), Occurrence(taglist[k], sourcefile));
        k := k + 1;
      }
      assert taglist[..k] == taglist;
    }

    /** Every directive found in one file, in order. */
    method RecordMatches(matches: seq<string>, sourcefile: string)
      modifies this
      ensures files == TagFiles(old(files), MatchOccurrences(matches, sourcefile))
    {
      var j := 0;
      while j < |matches|
        invariant 0 <= j <= |matches|
        invariant files == TagFiles(old(files), MatchOccurrences(matches[..j], sourcefile))
      {
        var taglist := TagListAsWritten(matches[j]);
        RecordTags(taglist, sourcefile);
        MatchOccurrencesSnoc(matches, j, sourcefile);
        TagFilesAppend(old(files), MatchOccurrences(matches[..j], sourcefile), TagOccurrences(taglist, sourcefile));
        j := j + 1;
      }
      assert matches[..j] == matches;
    }

    /** `make_tagfiles`: scan the files in order and record every tag of every
        directive found. */
    method MakeTagFiles(docs: seq<Doc>)
      modifies this
      ensures files == TagFiles(old(files), Occurrences(docs))
      ensures (forall i, m :: 0 <= i < |docs| && m in FindAll(docs[i].text) ==> CleanDirective(m))
              ==> files == TagFiles(old(files), IntendedOccurrences(docs))
    {
      var i := 0;
      while i < |docs|
        invariant 0 <= i <= |docs|
        invariant files == TagFiles(old(files), Occurrences(docs[..i]))
      {
        var matches := FindAll(docs[i].text);
        RecordMatches(matches, docs[i].path);
        OccurrencesSnoc(docs, i);
        TagFilesAppend(old(files), Occurrences(docs[..i]), MatchOccurrences(matches, docs[i].path));
        i := i + 1;
      }
      assert docs[..i] == docs;
      if forall i, m :: 0 <= i < |docs| && m in FindAll(docs[i].text) ==> CleanDirective(m) {
        OccurrencesAgree(docs);
      }
    }
  }
}
