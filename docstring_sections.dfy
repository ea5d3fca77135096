/** The section handling of the patched numpydoc parser (`_parse` in
    openmdao/docs/conf.py): every section title of a docstring is first
    normalised word by word with `str.capitalize`, unless it starts with
    `..`, and then decides how the section's lines are parsed and under
    which key they are stored. The parsers for each kind of section belong
    to numpydoc and are not modelled: a parsed section keeps its raw lines,
    tagged with the parser that would read them. */
module DocstringSections {
  import opened PyStr

  /** ASCII upper and lower case; every other character is its own case. */
  function Upper(c: char): char {
    if 'a' <= c <= 'z' then (c as int - 32) as char else c
  }

  function Lower(c: char): char {
    if 'A' <= c <= 'Z' then (c as int + 32) as char else c
  }

  /** `w.capitalize()`: the first character in upper case, the rest in lower case. */
  function Capitalize(w: string): string {
    if w == [] then [] else [Upper(w[0])] + seq(|w| - 1, k requires 0 <= k < |w| - 1 => Lower(w[k + 1]))
  }

  function CapitalizeAll(words: seq<string>): (r: seq<string>)
    ensures |r| == |words|
  {
    if words == [] then [] else [Capitalize(words[0])] + CapitalizeAll(words[1..])
  }

  /** `' '.join([s.capitalize() for s in section.split(' ')])`. */
  function CapitalizeWords(s: string): string {
    Join(CapitalizeAll(Split(s, " ")), " ")
  }

  /** The title as `_parse` uses it: unchanged when it starts with `..`,
      capitalised word by word otherwise. */
  function NormalizeTitle(section: string): string {
    if StartsWith(section, "..") then section else CapitalizeWords(section)
  }

  /** An independent, character-by-character reading of word capitalisation:
      a character is upper-cased when it opens the text or follows a blank,
      and lower-cased otherwise. */
  function TitleCase(s: string): string {
    seq(|s|, k requires 0 <= k < |s| => if k == 0 || s[k - 1] == ' ' then Upper(s[k]) else Lower(s[k]))
  }

  lemma TitleCaseAround(a: string, b: string)
    ensures TitleCase(a + " " + b) == TitleCase(a) + " " + TitleCase(b)
  {
    var s := a + " " + b;
    var r := TitleCase(a) + " " + TitleCase(b);
    forall k | 0 <= k < |s| ensures TitleCase(s)[k] == r[k] {
      if k > |a| {
        assert s[k] == b[k - |a| - 1];
        if k > |a| + 1 {
          assert s[k - 1] == b[k - |a| - 2];
        }
      } else if k < |a| {
        assert s[k] == a[k];
        if k > 0 {
          assert s[k - 1] == a[k - 1];
        }
      }
    }
  }

  lemma CapitalizeOneWord(w: string)
    requires forall k :: 0 <= k < |w| ==> w[k] != ' '
    ensures Capitalize(w) == TitleCase(w)
  {
    var c, t := Capitalize(w), TitleCase(w);
    forall k | 0 <= k < |w| ensures c[k] == t[k] {
      if k > 0 {
        assert w[k - 1] != ' ';
      }
    }
  }

  /** The case mappings are projections that fix blanks and dots. */
  lemma CaseFacts(c: char)
    ensures Upper(Upper(c)) == Upper(c) && Upper(Lower(c)) == Upper(c)
    ensures Lower(Upper(c)) == Lower(c) && Lower(Lower(c)) == Lower(c)
    ensures (Upper(c) == ' ' <==> c == ' ') && (Lower(c) == ' ' <==> c == ' ')
    ensures (Upper(c) == '.' <==> c == '.') && (Lower(c) == '.' <==> c == '.')
  {
  }

  /** Characters that agree in lower case agree in upper case. */
  lemma SameLower(c: char, d: char)
    requires Lower(c) == Lower(d)
    ensures Upper(c) == Upper(d) && (c == ' ' <==> d == ' ')
  {
  }

  lemma JoinCapitalizeCons(w: string, words: seq<string>)
    requires |words| >= 1
    ensures Join(CapitalizeAll([w] + words), " ") == Capitalize(w) + " " + Join(CapitalizeAll(words), " ")
  {
    assert ([w] + words)[1..] == words;
    var cs := CapitalizeAll([w] + words);
    assert cs == [Capitalize(w)] + CapitalizeAll(words);
    assert cs[1..] == CapitalizeAll(words);
  }

  /** No blank before the first one: the text up to it is a single word. */
  lemma BlankFree(s: string, i: nat)
    requires i <= |s| && forall j :: 0 <= j < i ==> !OccursAt(s, " ", j)
    ensures forall k :: 0 <= k < i ==> s[..i][k] != ' '
  {
    forall k | 0 <= k < i ensures s[..i][k] != ' ' {
      assert !OccursAt(s, " ", k);
      assert s[k..k + 1] == [s[k]];
    }
  }

  /** Cutting at the first blank: the word before it, then the split of the rest. */
  lemma SplitAtBlank(s: string, i: nat)
    requires FindFrom(s, " ", 0) == Some(i)
    ensures Split(s, " ") == [s[..i]] + Split(s[i + 1..], " ")
  {
  }

  /** The position FindFrom reports holds a blank. */
  lemma FoundBlank(s: string, i: nat)
    requires OccursAt(s, " ", i)
    ensures i < |s| && s[i] == ' '
  {
    assert s[i..i + 1][0] == s[i];
  }

  /** A text is the part before position i, the blank at i, and the rest. */
  lemma CutAt(s: string, i: nat)
    requires i < |s| && s[i] == ' '
    ensures s == s[..i] + " " + s[i + 1..]
  {
    assert s[..i + 1] == s[..i] + " ";
    assert s == s[..i + 1] + s[i + 1..];
  }

  /** Capitalising the words of a split on single blanks and joining them
      back is the character-by-character title case: blanks are kept where
      they are (runs of blanks included) and only the first letter of each
      word is upper case. */
  lemma {:induction false} CapitalizeWordsIsTitleCase(s: string)
    ensures CapitalizeWords(s) == TitleCase(s)
    decreases |s|
  {
    match FindFrom(s, " ", 0)
    case None =>
      BlankFree(s, |s|);
      assert s[..|s|] == s;
      CapitalizeOneWord(s);
    case Some(i) =>
      SplitAtBlank(s, i);
      FoundBlank(s, i);
      CutAt(s, i);
      var head := s[..i];
      var rest := s[i + 1..];
      BlankFree(s, i);
      CapitalizeOneWord(head);
      CapitalizeWordsIsTitleCase(rest);
      calc {
        CapitalizeWords(s);
        Join(CapitalizeAll([head] + Split(rest, " ")), " ");
        { JoinCapitalizeCons(head, Split(rest, " ")); }
        Capitalize(head) + " " + CapitalizeWords(rest);
        TitleCase(head) + " " + TitleCase(rest);
        { TitleCaseAround(head, rest); }
        TitleCase(head + " " + rest);
      }
  }

  /** Title case changes no blank into a letter and no letter into a blank. */
  lemma TitleCaseKeepsBlanks(s: string)
    ensures forall k :: 0 <= k < |s| ==> (TitleCase(s)[k] == ' ' <==> s[k] == ' ')
  {
    forall k | 0 <= k < |s| ensures TitleCase(s)[k] == ' ' <==> s[k] == ' ' {
      CaseFacts(s[k]);
    }
  }

  /** Capitalisation keeps the length and the blanks of the title. */
  lemma NormalizeKeepsShape(section: string)
    ensures |NormalizeTitle(section)| == |section|
    ensures forall k :: 0 <= k < |section| ==> (NormalizeTitle(section)[k] == ' ' <==> section[k] == ' ')
  {
    if !StartsWith(section, "..") {
      CapitalizeWordsIsTitleCase(section);
      TitleCaseKeepsBlanks(section);
    }
  }

  lemma TitleCaseIdempotent(s: string)
    ensures TitleCase(TitleCase(s)) == TitleCase(s)
  {
    var t := TitleCase(s);
    forall k | 0 <= k < |s| ensures TitleCase(t)[k] == t[k] {
      CaseFacts(s[k]);
      if k > 0 {
        CaseFacts(s[k - 1]);
      }
    }
  }

  /** Title case leaves a leading `..` where it is, and makes none. */
  lemma TitleCaseDots(s: string)
    ensures StartsWith(TitleCase(s), "..") <==> StartsWith(s, "..")
  {
    if |s| >= 2 {
      var t := TitleCase(s);
      CaseFacts(s[0]);
      CaseFacts(s[1]);
      assert s[..2] == [s[0], s[1]];
      assert t[..2] == [t[0], t[1]];
    }
  }

  lemma NormalizeOfDots(title: string)
    ensures StartsWith(NormalizeTitle(title), "..") <==> StartsWith(title, "..")
  {
    if !StartsWith(title, "..") {
      CapitalizeWordsIsTitleCase(title);
      TitleCaseDots(title);
    }
  }

  /** Normalising a normalised title changes nothing. */
  lemma NormalizeIdempotent(section: string)
    ensures NormalizeTitle(NormalizeTitle(section)) == NormalizeTitle(section)
  {
    if !StartsWith(section, "..") {
      var t := CapitalizeWords(section);
      CapitalizeWordsIsTitleCase(section);
      TitleCaseDots(section);
      CapitalizeWordsIsTitleCase(t);
      TitleCaseIdempotent(section);
    }
  }

  /** Titles that differ only in letter case normalise alike, unless one of
      them is passed through for starting with `..`. */
  lemma NormalizeCaseInsensitive(a: string, b: string)
    requires |a| == |b| && forall k :: 0 <= k < |a| ==> Lower(a[k]) == Lower(b[k])
    requires !StartsWith(a, "..")
    ensures NormalizeTitle(a) == NormalizeTitle(b)
  {
    DotsCaseInsensitive(a, b);
    CapitalizeWordsIsTitleCase(a);
    CapitalizeWordsIsTitleCase(b);
    TitleCaseCaseInsensitive(a, b);
  }

  /** Letter case does not decide whether a title starts with `..`. */
  lemma DotsCaseInsensitive(a: string, b: string)
    requires |a| == |b| && forall k :: 0 <= k < |a| ==> Lower(a[k]) == Lower(b[k])
    ensures StartsWith(a, "..") <==> StartsWith(b, "..")
  {
    if |b| >= 2 {
      assert Lower(a[0]) == Lower(b[0]) && Lower(a[1]) == Lower(b[1]);
      CaseFacts(a[0]);
      CaseFacts(a[1]);
      CaseFacts(b[0]);
      CaseFacts(b[1]);
      assert a[..2] == [a[0], a[1]];
      assert b[..2] == [b[0], b[1]];
    }
  }

  lemma TitleCaseCaseInsensitive(a: string, b: string)
    requires |a| == |b| && forall k :: 0 <= k < |a| ==> Lower(a[k]) == Lower(b[k])
    ensures TitleCase(a) == TitleCase(b)
  {
    var ta, tb := TitleCase(a), TitleCase(b);
    forall k | 0 <= k < |a| ensures ta[k] == tb[k] {
      SameLower(a[k], b[k]);
      if k > 0 {
        SameLower(a[k - 1], b[k - 1]);
      }
    }
  }

  /** The nine titles whose sections are parameter lists. */
  const ParamSections: seq<string> :=
    ["Args", "Options", "Params", "Returns", "Raises", "Warns", "Other Args", "Attributes", "Methods"]

  /** A section after `_parse`: the parser that reads its lines, and what it
      is given; `Unset` is the empty value `__init__` stores under each key
      before parsing (`''`, `[]`, `['']` or `{}`, not told apart here). */
  datatype Parsed =
    | Unset
    | ParamList(lines: seq<string>)
    | IndexEntry(section: string, lines: seq<string>)
    | SeeAlso(lines: seq<string>)
    | Raw(lines: seq<string>)

  /** A section of a docstring: its title and its lines. */
  datatype Section = Section(title: string, content: seq<string>)

  /** Under which key a section is stored and how it is parsed, tried in the
      source's order: a parameter-list title, an index directive, "See Also",
      anything else. */
  function Classify(s: Section): (r: (string, Parsed))
  {
    var title := NormalizeTitle(s.title);
    if title in ParamSections then (title, ParamList(s.content))
    else if StartsWith(title, ".. index::") then ("index", IndexEntry(title, s.content))
    else if title == "See Also" then ("See Also", SeeAlso(s.content))
    else (title, Raw(s.content))
  }

  /** The key a section is stored under. */
  function Key(s: Section): string {
    Classify(s).0
  }

  /** No parameter-list title starts with a dot or reads "See Also". */
  lemma ParamSectionsPlain()
    ensures forall t :: t in ParamSections ==> |t| > 0 && t[0] != '.' && t != "See Also"
  {
  }

  lemma IndexHasDots(x: string)
    requires StartsWith(x, ".. index::")
    ensures StartsWith(x, "..") && x[0] == '.'
  {
    assert x[..2] == x[..10][..2];
  }

  /** An index directive is recognised on the raw title: a title that starts
      with `..` is never rewritten, and no other title is rewritten into one. */
  lemma IndexOnRawTitle(title: string)
    ensures StartsWith(NormalizeTitle(title), ".. index::") <==> StartsWith(title, ".. index::")
  {
    NormalizeOfDots(title);
    if StartsWith(title, ".. index::") {
      IndexHasDots(title);
    }
    if StartsWith(NormalizeTitle(title), ".. index::") {
      IndexHasDots(NormalizeTitle(title));
    }
  }

  /** The four outcomes of the dispatch, each with the condition that selects it. */
  lemma ClassifyCases(s: Section)
    ensures Classify(s).1.ParamList? <==> NormalizeTitle(s.title) in ParamSections
    ensures Classify(s).1.IndexEntry? <==> StartsWith(s.title, ".. index::")
    ensures Classify(s).1.SeeAlso? <==> NormalizeTitle(s.title) == "See Also"
    ensures Classify(s).1.IndexEntry? ==> Key(s) == "index" && Classify(s).1.section == s.title
    ensures !Classify(s).1.IndexEntry? ==> Key(s) == NormalizeTitle(s.title)
    ensures Classify(s).1.lines == s.content
  {
    var title := NormalizeTitle(s.title);
    IndexOnRawTitle(s.title);
    ParamSectionsPlain();
    if StartsWith(title, ".. index::") {
      IndexHasDots(title);
      NormalizeOfDots(s.title);
      assert "See Also"[0] != '.';
    }
  }

  /** A title in any letter case that reads "see also" goes to the see-also parser. */
  lemma SeeAlsoAnyCase(title: string)
    requires |title| == 8 && forall k :: 0 <= k < 8 ==> Lower(title[k]) == Lower("See Also"[k])
    ensures Classify(Section(title, [])).1.SeeAlso?
  {
    var t := "See Also";
    assert !StartsWith(title, "..") by {
      assert Lower(title[0]) == 's';
    }
    NormalizeCaseInsensitive(title, t);
    SeeAlsoNormal();
    ClassifyCases(Section(title, []));
  }

  lemma SeeAlsoNormal()
    ensures NormalizeTitle("See Also") == "See Also"
  {
    SeeAlsoPlain();
    CapitalizeWordsIsTitleCase("See Also");
    TitleCaseSeeAlso();
  }

  lemma SeeAlsoPlain()
    ensures !StartsWith("See Also", "..")
  {
    assert "See Also"[0] == 'S';
  }

  lemma TitleCaseSeeAlso()
    ensures TitleCase("See Also") == "See Also"
  {
    var t := "See Also";
    var r := TitleCase(t);
    assert r[0] == 'S' && r[1] == 'e' && r[2] == 'e' && r[3] == ' ';
    assert r[4] == 'A' && r[5] == 'l' && r[6] == 's' && r[7] == 'o';
    assert r == t;
  }

  /** The eighteen keys `__init__` puts in the parsed data. */
  const SectionKeys: set<string> := {
    "Signature", "Summary", "Extended Summary", "Args", "Options", "Returns", "Raises", "Warns",
    "Other Args", "Attributes", "Params", "Methods", "See Also", "Notes", "Warnings",
    "References", "Examples", "index"
  }

  /** The parsed data as `__init__` sets it up, before `_parse` runs. */
  const InitialData: map<string, Parsed> := map k | k in SectionKeys :: Unset

  /** The set-up holds exactly the eighteen keys, none of them parsed yet. */
  lemma InitialDataShape()
    ensures InitialData.Keys == SectionKeys
    ensures forall k :: k in InitialData ==> InitialData[k] == Unset
  {
  }

  /** Every key the dispatch gives a parser of its own is one of the eighteen. */
  lemma DispatchKeysKnown()
    ensures forall t :: t in ParamSections ==> t in SectionKeys
    ensures "index" in SectionKeys && "See Also" in SectionKeys
  {
  }

  /** What a run of sections leaves in the parsed data: each section is
      stored under its key if that key is already there (numpydoc's
      `__setitem__` drops any other key), a later section replacing an
      earlier one. */
  function Stored(data: map<string, Parsed>, sections: seq<Section>): map<string, Parsed> {
    if sections == [] then data
    else
      var prev := Stored(data, sections[..|sections| - 1]);
      var (key, p) := Classify(sections[|sections| - 1]);
      if key in prev then prev[key := p] else prev
  }

  lemma StoredSnoc(data: map<string, Parsed>, sections: seq<Section>, i: nat, key: string, p: Parsed)
    requires i < |sections| && (key, p) == Classify(sections[i])
    ensures var prev := Stored(data, sections[..i]);
            Stored(data, sections[..i + 1]) == if key in prev then prev[key := p] else prev
  {
    assert sections[..i + 1][..i] == sections[..i];
  }

  /** Parsing never adds or removes a key: a section under an unknown title
      is dropped. */
  lemma {:induction false} StoredKeys(data: map<string, Parsed>, sections: seq<Section>)
    ensures Stored(data, sections).Keys == data.Keys
    decreases |sections|
  {
    if sections != [] {
      StoredKeys(data, sections[..|sections| - 1]);
    }
  }

  /** A known key holds the last section stored under it: a later section
      replaces an earlier one. */
  lemma {:induction false} StoredLastWins(data: map<string, Parsed>, sections: seq<Section>, k: nat)
    requires k < |sections| && Key(sections[k]) in data
    requires forall l :: k < l < |sections| ==> Key(sections[l]) != Key(sections[k])
    ensures Key(sections[k]) in Stored(data, sections)
    ensures Stored(data, sections)[Key(sections[k])] == Classify(sections[k]).1
    decreases |sections|
  {
    StoredKeys(data, sections[..k]);
    if k < |sections| - 1 {
      var init := sections[..|sections| - 1];
      assert init[k] == sections[k];
      forall l | k < l < |init| ensures Key(init[l]) != Key(init[k]) {
        assert init[l] == sections[l];
      }
      StoredLastWins(data, init, k);
    } else {
      assert sections[..k] == sections[..|sections| - 1];
    }
  }

  /** A key no section is stored under keeps its old value. */
  lemma {:induction false} StoredUntouched(data: map<string, Parsed>, sections: seq<Section>, key: string)
    requires key in data
    requires forall k :: 0 <= k < |sections| ==> Key(sections[k]) != key
    ensures key in Stored(data, sections) && Stored(data, sections)[key] == data[key]
    decreases |sections|
  {
    if sections != [] {
      var init := sections[..|sections| - 1];
      forall k | 0 <= k < |init| ensures Key(init[k]) != key {
        assert init[k] == sections[k];
      }
      StoredUntouched(data, init, key);
    }
  }

  /** The docstring being parsed: the data `_parse` fills, keyed by section. */
  class DocString {
    var data: map<string, Parsed>

    /** `__init__`: the eighteen keys with their empty values, then `_parse`
        over the sections the reader returns. */
    constructor (sections: seq<Section>)
      ensures data == Stored(InitialData, sections)
    {
      data := InitialData;
      new;
      Parse(sections);
    }

    /** The loop of `_parse` over the sections the reader returns; a store
        under a key the data does not hold is dropped. */
    method Parse(sections: seq<Section>)
      modifies this
      ensures data == Stored(old(data), sections)
    {
      var i := 0;
      while i < |sections|
        invariant 0 <= i <= |sections|
        invariant data == Stored(old(data), sections[..i])
      {
        var (key, parsed) := Classify(sections[i]);
        StoredSnoc(old(data), sections, i, key, parsed);
        if key in data {
          data := data[key := parsed];
        }
        i := i + 1;
      }
      assert sections[..i] == sections;
    }
  }
}
