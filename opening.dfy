/**
 * One chess opening as the tool sees it: its identity (the key under which it
 * is stored), the Markdown card it renders to, and the text written to disk.
 */
module Openings {

  /** Run-time configuration the opening carries but never renders. */
  datatype Config = Config(options: map<string, string>)

  /** Locations of the tool's directories; only the openings directory matters here. */
  datatype Paths = Paths(openingsDir: string)

  /** The fields of an opening in declaration order. */
  datatype Opening = Opening(
    name: string,
    site: string,
    eco: string,
    moves: string,
    config: Config,
    paths: Paths)

  /** `str(opening)`: the display key, which is also the stem of its file. */
  function Identity(o: Opening): (key: string)
    ensures |key| == |o.eco| + 3 + |o.name|
    ensures key[..|o.eco|] == o.eco
    ensures key[|o.eco|..|o.eco| + 3] == " - "
    ensures key[|o.eco| + 3..] == o.name
  {
    o.eco + " - " + o.name
  }

  /**
   * The key names exactly the ECO code and the name: for ECO codes without a
   * space (such as "B20"), two openings share a key if and only if they agree
   * on both, whatever their site, moves, configuration and paths.
   */
  lemma IdentityInjective(o1: Opening, o2: Opening)
    requires ' ' !in o1.eco && ' ' !in o2.eco
    ensures Identity(o1) == Identity(o2) <==> o1.eco == o2.eco && o1.name == o2.name
  {
    if Identity(o1) == Identity(o2) {
      if |o1.eco| < |o2.eco| {
        KeyCharAt(o1, o2, |o1.eco|);
      } else if |o2.eco| < |o1.eco| {
        KeyCharAt(o2, o1, |o2.eco|);
      }
    }
  }

  /** Where one key has its separating space, a key with a longer ECO code has an ECO character. */
  lemma KeyCharAt(short: Opening, long: Opening, m: nat)
    requires m == |short.eco| < |long.eco|
    ensures Identity(short)[m] == ' ' && Identity(long)[m] == long.eco[m]
  {
    assert Identity(short)[m..m + 3] == " - ";
    assert Identity(long)[..|long.eco|] == long.eco;
  }

  /** The attributes of an opening, in the order `vars()` lists them. */
  datatype Field = NameField | SiteField | EcoField | MovesField | ConfigField | PathsField

  const Fields: seq<Field> := [NameField, SiteField, EcoField, MovesField, ConfigField, PathsField]

  /** The attribute's name as the dataclass declares it. */
  function AttributeName(f: Field): string
  {
    match f
    case NameField => "name"
    case SiteField => "site"
    case EcoField => "eco"
    case MovesField => "moves"
    case ConfigField => "config"
    case PathsField => "paths"
  }

  /** The attribute names left out of the rendered card. */
  const HiddenKeys: seq<string> := ["config", "paths"]

  predicate Hidden(f: Field)
  {
    AttributeName(f) in HiddenKeys
  }

  /** The string value of a rendered attribute. */
  function FieldValue(o: Opening, f: Field): string
    requires !Hidden(f)
  {
    match f
    case NameField => o.name
    case SiteField => o.site
    case EcoField => o.eco
    case MovesField => o.moves
  }

  /** `s.replace(from, to)` for single characters. */
  function ReplaceChar(s: string, from: char, to: char): (r: string)
    ensures |r| == |s|
  {
    if s == [] then [] else [if s[0] == from then to else s[0]] + ReplaceChar(s[1..], from, to)
  }

  predicate IsAsciiLetter(c: char)
  {
    'a' <= c <= 'z' || 'A' <= c <= 'Z'
  }

  function ToUpper(c: char): char
  {
    if 'a' <= c <= 'z' then (c as int - 32) as char else c
  }

  function ToLower(c: char): char
  {
    if 'A' <= c <= 'Z' then (c as int + 32) as char else c
  }

  /**
   * `str.title()` on ASCII text: a letter that follows a letter is lower-cased,
   * any other letter is upper-cased; other characters are kept.
   */
  function TitleFrom(s: string, afterLetter: bool): (r: string)
    ensures |r| == |s|
  {
    if s == [] then []
    else if IsAsciiLetter(s[0]) then
      [if afterLetter then ToLower(s[0]) else ToUpper(s[0])] + TitleFrom(s[1..], true)
    else
      [s[0]] + TitleFrom(s[1..], false)
  }

  /** `key.replace('_', ' ').title()`: the heading of an attribute's section. */
  function Title(key: string): (heading: string)
    ensures |heading| == |key|
  {
    TitleFrom(ReplaceChar(key, '_', ' '), false)
  }

  /** One section of the card. */
  function Section(heading: string, value: string): string
  {
    "## " + heading + "\n" + value + "\n"
  }

  /** What one attribute contributes to the card: nothing when hidden, else its section. */
  function SectionOf(o: Opening, f: Field): string
  {
    if Hidden(f) then "" else Section(Title(AttributeName(f)), FieldValue(o, f))
  }

  /** The sections contributed by the attributes `fs`, in order. */
  function Sections(o: Opening, fs: seq<Field>): string
  {
    if fs == [] then "" else SectionOf(o, fs[0]) + Sections(o, fs[1..])
  }

  const CardHeading := "# Opening\n"

  /** The `md` property: the Markdown card of an opening. */
  function Md(o: Opening): (card: string)
    ensures |card| >= |CardHeading| && card[..|CardHeading|] == CardHeading
  {
    CardHeading + Sections(o, Fields)
  }

  predicate LowerWord(w: string)
  {
    forall i :: 0 <= i < |w| ==> 'a' <= w[i] <= 'z'
  }

  lemma {:induction false} ReplaceCharAbsent(w: string)
    requires LowerWord(w)
    ensures ReplaceChar(w, '_', ' ') == w
  {
    if w != [] {
      ReplaceCharAbsent(w[1..]);
    }
  }

  lemma {:induction false} TitleFromLower(w: string)
    requires LowerWord(w)
    ensures TitleFrom(w, true) == w
  {
    if w != [] {
      TitleFromLower(w[1..]);
    }
  }

  /** `title()` of a lower-case word capitalises its first letter and keeps the rest. */
  lemma TitleOfLowerWord(w: string)
    requires w != [] && LowerWord(w)
    ensures Title(w) == [ToUpper(w[0])] + w[1..]
  {
    ReplaceCharAbsent(w);
    TitleFromLower(w[1..]);
  }

  lemma TitleOfName() ensures Title("name") == "Name"
  {
    TitleOfLowerWord("name");
  }

  lemma TitleOfSite() ensures Title("site") == "Site"
  {
    TitleOfLowerWord("site");
  }

  lemma TitleOfEco() ensures Title("eco") == "Eco"
  {
    TitleOfLowerWord("eco");
  }

  lemma TitleOfMoves() ensures Title("moves") == "Moves"
  {
    TitleOfLowerWord("moves");
  }

  /** Name, site, ECO code and moves are rendered; config and paths are hidden. */
  lemma HiddenFields()
    ensures !Hidden(NameField) && !Hidden(SiteField) && !Hidden(EcoField) && !Hidden(MovesField)
    ensures Hidden(ConfigField) && Hidden(PathsField)
  {
    assert HiddenKeys[0] == "config" && HiddenKeys[1] == "paths";
    assert "name"[0] != 'c' && "name"[0] != 'p';
    assert "site"[0] != 'c' && "site"[0] != 'p';
    assert "eco"[0] != 'c' && "eco"[0] != 'p';
    assert "moves"[0] != 'c' && "moves"[0] != 'p';
  }

  /** The section of each attribute, titled by its capitalised name. */
  lemma SectionOfEachField(o: Opening)
    ensures SectionOf(o, NameField) == Section("Name", o.name)
    ensures SectionOf(o, SiteField) == Section("Site", o.site)
    ensures SectionOf(o, EcoField) == Section("Eco", o.eco)
    ensures SectionOf(o, MovesField) == Section("Moves", o.moves)
    ensures SectionOf(o, ConfigField) == "" && SectionOf(o, PathsField) == ""
  {
    HiddenFields();
    TitleOfName();
    TitleOfSite();
    TitleOfEco();
    TitleOfMoves();
  }

  lemma SectionsCons(o: Opening, f: Field, fs: seq<Field>)
    ensures Sections(o, [f] + fs) == SectionOf(o, f) + Sections(o, fs)
  {
    assert ([f] + fs)[1..] == fs;
  }

  /** The attributes contribute their sections in declaration order. */
  lemma SectionsOfFields(o: Opening)
    ensures Sections(o, Fields)
            == SectionOf(o, NameField) + (SectionOf(o, SiteField) + (SectionOf(o, EcoField)
               + (SectionOf(o, MovesField) + (SectionOf(o, ConfigField) + SectionOf(o, PathsField)))))
  {
    var t5: seq<Field> := [PathsField];
    var t4 := [ConfigField] + t5;
    var t3 := [MovesField] + t4;
    var t2 := [EcoField] + t3;
    var t1 := [SiteField] + t2;
    assert Fields == [NameField] + t1;
    assert Sections(o, []) == "";
    SectionsCons(o, PathsField, []);
    assert Sections(o, t5) == SectionOf(o, PathsField);
    SectionsCons(o, ConfigField, t5);
    SectionsCons(o, MovesField, t4);
    SectionsCons(o, EcoField, t3);
    SectionsCons(o, SiteField, t2);
    SectionsCons(o, NameField, t1);
  }

  /**
   * The card is the heading followed by exactly four sections, Name, Site,
   * Eco and Moves in that order, each holding the attribute's value.
   */
  lemma MdLayout(o: Opening)
    ensures Md(o) == "# Opening\n" + Section("Name", o.name) + Section("Site", o.site)
                     + Section("Eco", o.eco) + Section("Moves", o.moves)
  {
    SectionsOfFields(o);
    SectionOfEachField(o);
    Regroup("# Opening\n", SectionOf(o, NameField), SectionOf(o, SiteField), SectionOf(o, EcoField),
            SectionOf(o, MovesField), SectionOf(o, ConfigField), SectionOf(o, PathsField));
  }

  lemma Regroup(h: string, a: string, b: string, c: string, d: string, e: string, f: string)
    requires e == [] && f == []
    ensures h + (a + (b + (c + (d + (e + f))))) == h + a + b + c + d
  {
    assert d + (e + f) == d;
  }

  /** The configuration and the paths never reach the card. */
  lemma MdIgnoresConfigAndPaths(o1: Opening, o2: Opening)
    requires o1.name == o2.name && o1.site == o2.site && o1.eco == o2.eco && o1.moves == o2.moves
    ensures Md(o1) == Md(o2)
  {
    MdLayout(o1);
    MdLayout(o2);
  }

  /** The `apy_header` property: the card's metadata for the flashcard tool. */
  const ApyHeader: string :=
    "model: Chessli Openings\ntags: chess::openings\ndeck: Chessli::openings\nmarkdown: False\n\n"

  /** What `store` writes to the opening's file. */
  function StoredText(o: Opening): (text: string)
    ensures |text| == |ApyHeader| + |Md(o)| + 2
    ensures text[..|ApyHeader|] == ApyHeader
    ensures text[|ApyHeader|..|text| - 2] == Md(o)
    ensures text[|text| - 2..] == "\n\n"
  {
    ApyHeader + Md(o) + "\n\n"
  }

  /**
   * The header is fixed, so two stored files agree exactly when the cards
   * they hold agree.
   */
  lemma StoredTextDeterminesCard(o1: Opening, o2: Opening)
    ensures StoredText(o1) == StoredText(o2) <==> Md(o1) == Md(o2)
  {
    if StoredText(o1) == StoredText(o2) {
      var t := StoredText(o1);
      assert Md(o1) == t[|ApyHeader|..|t| - 2] == Md(o2);
    }
  }
}
