/** Unix paths as text: splitting into components, printing, and normalisation of texts. */
module PathText {
  import opened Text
  import opened LexicalPath

  // ----- reading -----

  predicate IsName(piece: string) {
    piece != "" && piece != "." && piece != ".." && '/' !in piece
  }

  /** Empty and `.` pieces say nothing. */
  function Parts(pieces: seq<string>): seq<Component> {
    if pieces == [] then []
    else
      var last := pieces[|pieces| - 1];
      Parts(pieces[..|pieces| - 1])
      + (if last == "" || last == "." then [] else if last == ".." then [ParentDir] else [Normal(last)])
  }

  /** The components of a path; a leading `.` of a relative path is kept. */
  function Parse(text: string): Path {
    var pieces := Split(text, '/');
    Path(text != "" && text[0] == '/', (if pieces[0] == "." then [CurDir] else []) + Parts(pieces))
  }

  // ----- printing -----

  function PartText(c: Component): string {
    match c
    case CurDir => "."
    case ParentDir => ".."
    case Normal(name) => name
  }

  function PartTexts(parts: seq<Component>): seq<string> {
    seq(|parts|, i requires 0 <= i < |parts| => PartText(parts[i]))
  }

  function Show(p: Path): string {
    (if p.absolute then "/" else "") + Join(PartTexts(p.parts), '/')
  }

  function NormText(text: string): string {
    Show(Norm(Parse(text)))
  }

  /** `PathBuf::join` on texts. */
  function JoinText(a: string, b: string): string {
    if a == "" || (b != "" && b[0] == '/') then b
    else if a[|a| - 1] == '/' then a + b
    else a + "/" + b
  }

  // ----- printed normal forms read back -----

  predicate Clean(c: Component) {
    c == ParentDir || (c.Normal? && IsName(c.name))
  }

  ghost predicate AllClean(parts: seq<Component>) {
    forall i :: 0 <= i < |parts| ==> Clean(parts[i])
  }

  lemma {:induction false} PartsClean(pieces: seq<string>)
    requires forall i :: 0 <= i < |pieces| ==> '/' !in pieces[i]
    ensures AllClean(Parts(pieces))
  {
    if pieces != [] {
      PartsClean(pieces[..|pieces| - 1]);
    }
  }

  lemma {:induction false} FoldClean(absolute: bool, parts: seq<Component>)
    requires forall i :: 0 <= i < |parts| ==> parts[i] == CurDir || Clean(parts[i])
    ensures AllClean(Fold(absolute, parts))
  {
    if parts != [] {
      FoldClean(absolute, parts[..|parts| - 1]);
    }
  }

  lemma {:induction false} PartsOfTexts(parts: seq<Component>)
    requires AllClean(parts)
    ensures Parts(PartTexts(parts)) == parts
  {
    if parts != [] {
      var front := parts[..|parts| - 1];
      PartsOfTexts(front);
      assert PartTexts(parts)[..|parts| - 1] == PartTexts(front);
    }
  }

  lemma {:induction false} PartsConcat(a: seq<string>, b: seq<string>)
    ensures Parts(a + b) == Parts(a) + Parts(b)
    decreases |b|
  {
    if b == [] {
      assert a + b == a;
    } else {
      assert (a + b)[..|a + b| - 1] == a + b[..|b| - 1];
      PartsConcat(a, b[..|b| - 1]);
    }
  }

  lemma CleanNotDot(c: Component)
    requires Clean(c)
    ensures PartText(c) != "." && PartText(c) != "" && '/' !in PartText(c)
  {
  }

  lemma PartsEmpty()
    ensures Parts([""]) == []
  {
    assert [""][..0] == [];
  }

  lemma ParseRoot()
    ensures Parse("/") == Path(true, [])
  {
    assert "" + ['/'] + "" == "/";
    SplitConcat("", "", '/');
    PartsEmpty();
    PartsConcat([""], [""]);
    assert [""] + [""] == ["", ""];
  }

  lemma TextsSplit(parts: seq<Component>)
    requires AllClean(parts) && parts != []
    ensures Split(Join(PartTexts(parts), '/'), '/') == PartTexts(parts)
    ensures PartTexts(parts)[0] != "" && PartTexts(parts)[0] != "."
    ensures '/' !in PartTexts(parts)[0]
  {
    var texts := PartTexts(parts);
    forall i | 0 <= i < |texts| ensures '/' !in texts[i] {
      CleanNotDot(parts[i]);
    }
    CleanNotDot(parts[0]);
    SplitJoin(texts, '/');
  }

  /** Any path of clean components survives printing and reading. */
  lemma ParseShow(p: Path)
    requires AllClean(p.parts) && (p.parts == [] ==> p.absolute)
    ensures Parse(Show(p)) == p
  {
    if p.parts == [] {
      ParseRoot();
      assert Show(p) == "/";
    } else {
      PartsOfTexts(p.parts);
      TextsSplit(p.parts);
      ShowParts(p);
      hide PartTexts, Parts, Join, Split, AllClean, Show;
      var texts := PartTexts(p.parts);
      var body := Join(texts, '/');
      JoinHead(texts);
      assert texts[0][0] in texts[0];
      if p.absolute {
        ParseRooted(body, texts);
        assert [] + p.parts == p.parts;
      } else {
        assert [] + body == body && [] + p.parts == p.parts;
      }
    }
  }

  lemma ShowParts(p: Path)
    requires p.parts != []
    ensures Show(p) == (if p.absolute then ['/'] else []) + Join(PartTexts(p.parts), '/')
  {
    hide Join;
  }

  /** A slash in front adds an empty piece, which names nothing. */
  lemma ParseRooted(body: string, texts: seq<string>)
    requires Split(body, '/') == texts
    ensures Split(['/'] + body, '/')[0] == "" && Parts(Split(['/'] + body, '/')) == Parts(texts)
  {
    SplitConcat("", body, '/');
    assert "" + ['/'] + body == ['/'] + body;
    assert Split("", '/') == [""] by { SplitWhole("", '/'); }
    hide Parts, Split;
    PartsConcat([""], texts);
    PartsEmpty();
    assert [] + Parts(texts) == Parts(texts);
  }

  lemma JoinHead(texts: seq<string>)
    requires texts != [] && texts[0] != ""
    ensures Join(texts, '/') != "" && Join(texts, '/')[0] == texts[0][0]
  {
  }

  lemma ParsedParts(text: string)
    ensures forall i :: 0 <= i < |Parse(text).parts| ==> Parse(text).parts[i] == CurDir || Clean(Parse(text).parts[i])
  {
    PartsClean(Split(text, '/'));
  }

  /** Reading a normalised text gives the normal form of the path it came from. */
  lemma ParseNormText(text: string)
    ensures Parse(NormText(text)) == Norm(Parse(text))
  {
    var p := Parse(text);
    ParsedParts(text);
    FoldClean(p.absolute, p.parts);
    hide Parse, Fold, AllClean;
    if Fold(p.absolute, p.parts) == [] && !p.absolute {
      assert Show(Norm(p)) == ".";
      SplitWhole(".", '/');
      assert Parts(["."]) == [] by { assert ["."][..0] == []; }
    } else {
      ParseShow(Norm(p));
    }
  }

  // ----- results about texts -----

  /** Normalising a normalised text changes nothing. */
  lemma NormTextIdempotent(text: string)
    ensures NormText(NormText(text)) == NormText(text)
  {
    ParseNormText(text);
    NormIdempotent(Parse(text));
  }

  /** A normalised text leads where the text leads. */
  lemma NormTextMeans(text: string, cwd: seq<string>)
    ensures Denote(Parse(NormText(text)), cwd) == Denote(Parse(text), cwd)
  {
    ParseNormText(text);
    NormMeans(Parse(text), cwd);
  }

  /** Two texts of one kind normalise alike exactly when they always lead to the same place. */
  lemma NormTextCanonical(a: string, b: string)
    requires Parse(a).absolute == Parse(b).absolute
    ensures NormText(a) == NormText(b) <==> forall cwd :: Denote(Parse(a), cwd) == Denote(Parse(b), cwd)
  {
    NormIsCanonical(Parse(a), Parse(b));
    ParseNormText(a);
    ParseNormText(b);
  }

  /** A leading `.` makes no difference to a fold. */
  lemma {:induction false} LeadingDot(absolute: bool, out: seq<Component>, parts: seq<Component>)
    ensures FoldFrom(absolute, out, [CurDir] + parts) == FoldFrom(absolute, out, parts)
  {
    if parts == [] {
      assert ([CurDir] + parts)[..0] == [];
    } else {
      var all := [CurDir] + parts;
      assert all[..|all| - 1] == [CurDir] + parts[..|parts| - 1];
      LeadingDot(absolute, out, parts[..|parts| - 1]);
    }
  }

  /** The text a join puts a slash after. */
  function BaseOf(a: string): string
    requires a != ""
  {
    if a[|a| - 1] == '/' then a[..|a| - 1] else a
  }

  function LeadingDots(pieces: seq<string>): seq<Component>
    requires pieces != []
  {
    if pieces[0] == "." then [CurDir] else []
  }

  lemma ParseBase(a: string)
    requires a != ""
    ensures var pieces := Split(BaseOf(a), '/');
            Parse(a).parts == LeadingDots(pieces) + Parts(pieces)
  {
    var base := BaseOf(a);
    if base != a {
      assert a == base + ['/'] + "";
      SplitConcat(base, "", '/');
      SplitWhole("", '/');
      hide Split;
      PartsConcat(Split(base, '/'), [""]);
      PartsEmpty();
      assert Parts(Split(base, '/')) + [] == Parts(Split(base, '/'));
    }
  }

  lemma ParseJoined(a: string, b: string)
    requires a != "" && !Parse(b).absolute
    ensures Parse(JoinText(a, b)) == Path(Parse(a).absolute, Parse(a).parts + Parts(Split(b, '/')))
  {
    hide Parts, Split, JoinText, BaseOf;
    var base, t := BaseOf(a), JoinText(a, b);
    JoinBase(a, b);
    ParseBase(a);
    SplitConcat(base, b, '/');
    PartsConcat(Split(base, '/'), Split(b, '/'));
    var dots, front, rest := LeadingDots(Split(base, '/')), Parts(Split(base, '/')), Parts(Split(b, '/'));
    assert dots + (front + rest) == dots + front + rest;
  }

  lemma JoinBase(a: string, b: string)
    requires a != "" && (b == "" || b[0] != '/')
    ensures JoinText(a, b) == BaseOf(a) + ['/'] + b
    ensures JoinText(a, b)[0] == a[0]
  {
  }

  /** Joining texts is joining paths, up to dots. */
  lemma JoinTextFolds(a: string, b: string)
    requires a != "" && !Parse(b).absolute
    ensures Parse(JoinText(a, b)).absolute == Parse(a).absolute
    ensures Fold(Parse(a).absolute, Parse(JoinText(a, b)).parts) == Fold(Parse(a).absolute, Parse(a).parts + Parse(b).parts)
  {
    ParseJoined(a, b);
    var abs, front, rest := Parse(a).absolute, Parse(a).parts, Parts(Split(b, '/'));
    hide Fold, FoldFrom, JoinText;
    FoldSplit(abs, front, rest);
    FoldSplit(abs, front, Parse(b).parts);
    LeadingDot(abs, Fold(abs, front), rest);
    assert [] + rest == rest;
  }

  /** The base of a textual join may be normalised first. */
  lemma NormTextOfJoin(a: string, b: string)
    ensures NormText(JoinText(a, b)) == NormText(JoinText(NormText(a), b))
  {
    if b == "" || b[0] != '/' {
      var pa, pb := Parse(a), Parse(b);
      ParseNormText(a);
      NormTextNotEmpty(a);
      JoinTextFolds(NormText(a), b);
      NormOfJoin(pa, pb);
      if a != "" {
        JoinTextFolds(a, b);
      } else {
        EmptyBase(b);
      }
    }
  }

  lemma NormTextNotEmpty(a: string)
    ensures NormText(a) != ""
  {
    var p := Norm(Parse(a));
    ParsedParts(a);
    FoldClean(p.absolute, Parse(a).parts);
    if !p.absolute {
      assert PartText(p.parts[0]) != "";
      JoinHead(PartTexts(p.parts));
    }
  }

  lemma EmptyBase(b: string)
    ensures Parse("") == Path(false, [])
    ensures Fold(false, Parse("").parts + Parse(b).parts) == Fold(false, Parse(b).parts)
  {
    assert Parts([""]) == [] by { assert [""][..0] == []; }
    assert [] + Parse(b).parts == Parse(b).parts;
  }
}
