/**
 * The per-item page renderer: one documentation item of a parsed DocFX YAML
 * file becomes one Markdown page (frontmatter, heading, type line, then the
 * optional sections) and the name of the file it is written to.
 */
module Render {
  import opened Wrappers
  import opened Text
  import opened Sanitize

  /** One entry of `syntax.parameters`. */
  datatype Parameter = Parameter(id: Option<string>, paramType: Option<string>, description: Option<string>)

  /** The `syntax` mapping of an item. */
  datatype Syntax = Syntax(content: Option<string>, parameters: Option<seq<Parameter>>)

  /** One entry of `items` in a DocFX YAML file; every key may be absent. */
  datatype Item = Item(
    uid: Option<string>,
    name: Option<string>,
    itemType: Option<string>,
    summary: Option<string>,
    syntax: Option<Syntax>,
    returnsInfo: Option<string>,
    inheritance: Option<seq<string>>)

  /**
   * The separator between inheritance entries. The converter's source file
   * stores a UTF-8 arrow that was decoded once as Windows-1252 and re-encoded,
   * so the string the program joins with is space, U+00E2, U+2020, U+2019, space.
   */
  const InheritanceSeparator: string := " \U{E2}\U{2020}\U{2019} "

  // ---------------------------------------------------------------- reading the item

  /** `str(item.get('uid') or 'unknown')`: an absent or empty uid becomes "unknown". */
  function Uid(item: Item): (r: string)
    ensures |r| > 0
    ensures item.uid.Some? && item.uid.value != "" ==> r == item.uid.value
    ensures item.uid.None? || item.uid.value == "" ==> r == "unknown"
  {
    match item.uid
    case Some(u) => if u != "" then u else "unknown"
    case None => "unknown"
  }

  /** The displayed name: the item's name when it is a non-blank string, otherwise the uid. */
  function DisplayName(item: Item): (r: string)
    ensures |r| > 0
    ensures item.name.Some? && !IsBlank(item.name.value) ==> r == item.name.value
    ensures item.name.None? || IsBlank(item.name.value) ==> r == Uid(item)
  {
    if item.name.Some? && !IsBlank(item.name.value) then item.name.value else Uid(item)
  }

  function ItemType(item: Item): string { item.itemType.GetOr("") }

  function Summary(item: Item): string { item.summary.GetOr("") }

  function SyntaxContent(item: Item): string
  {
    match item.syntax
    case Some(s) => s.content.GetOr("")
    case None => ""
  }

  function Parameters(item: Item): seq<Parameter>
  {
    match item.syntax
    case Some(s) => s.parameters.GetOr([])
    case None => []
  }

  function Returns(item: Item): string { item.returnsInfo.GetOr("") }

  function Inheritance(item: Item): seq<string> { item.inheritance.GetOr([]) }

  // ---------------------------------------------------------------- page layout

  /** One bullet of the Parameters section; a missing key renders as "". */
  function ParameterLine(p: Parameter): string
  {
    "- **" + p.id.GetOr("") + "** (" + p.paramType.GetOr("") + "): " + p.description.GetOr("") + "\n"
  }

  /** The bullets of the Parameters section, one per parameter, in order. */
  function ParameterLines(ps: seq<Parameter>): (r: seq<string>)
    ensures |r| == |ps|
  {
    seq(|ps|, i requires 0 <= i < |ps| => ParameterLine(ps[i]))
  }

  /** The optional sections of a page. */
  datatype Section =
    | InheritanceSection(entries: seq<string>)
    | SummarySection(summary: string)
    | SyntaxSection(content: string)
    | ParametersSection(parameters: seq<Parameter>)
    | ReturnsSection(returnsInfo: string)
  {
    /** Position in the fixed order in which sections appear on a page. */
    function Rank(): nat
    {
      match this
      case InheritanceSection(_) => 0
      case SummarySection(_) => 1
      case SyntaxSection(_) => 2
      case ParametersSection(_) => 3
      case ReturnsSection(_) => 4
    }

    /** Python truthiness of the field behind the section: a section is written only when it holds. */
    predicate Present()
    {
      match this
      case InheritanceSection(entries) => |entries| > 0
      case SummarySection(summary) => |summary| > 0
      case SyntaxSection(content) => |content| > 0
      case ParametersSection(parameters) => |parameters| > 0
      case ReturnsSection(returnsInfo) => |returnsInfo| > 0
    }

    function Markdown(): string
    {
      match this
      case InheritanceSection(entries) => InheritanceHeading + (Join(entries, InheritanceSeparator) + "\n\n")
      case SummarySection(summary) => "## Summary\n" + summary + "\n\n"
      case SyntaxSection(content) => "## Syntax\n```csharp\n" + content + "\n```\n\n"
      case ParametersSection(parameters) => ParametersHeading + Concat(ParameterLines(parameters)) + "\n"
      case ReturnsSection(returnsInfo) => "## Returns\n\n" + returnsInfo + "\n"
    }
  }

  const InheritanceHeading: string := "## Inheritance\n"
  const ParametersHeading: string := "## Parameters\n\n"

  /** Whether the item's field behind the section of the given rank is non-empty. */
  predicate HasSection(item: Item, rank: nat)
  {
    match rank
    case 0 => |Inheritance(item)| > 0
    case 1 => |Summary(item)| > 0
    case 2 => |SyntaxContent(item)| > 0
    case 3 => |Parameters(item)| > 0
    case 4 => |Returns(item)| > 0
    case _ => false
  }

  /** Strictly increasing in rank. */
  predicate RankOrdered(ss: seq<Section>)
  {
    forall i, j :: 0 <= i < j < |ss| ==> ss[i].Rank() < ss[j].Rank()
  }

  /** `s` alone when present, nothing otherwise. */
  function When(s: Section): seq<Section>
  {
    if s.Present() then [s] else []
  }

  /** The `if` chain of the loop body: each section whose field is non-empty, in page order. */
  function PageSections(inheritance: seq<string>, summary: string, syntax: string,
                        parameters: seq<Parameter>, returnsInfo: string): seq<Section>
  {
    When(InheritanceSection(inheritance)) + When(SummarySection(summary)) + When(SyntaxSection(syntax))
      + When(ParametersSection(parameters)) + When(ReturnsSection(returnsInfo))
  }

  /**
   * Appending `s` when present to the present sections of `cs`: the result
   * stays ordered when `s` outranks `cs`, and holds the present sections of `cs + [s]`.
   */
  lemma AppendWhen(a: seq<Section>, cs: seq<Section>, s: Section)
    requires RankOrdered(a)
    requires forall x :: x in a <==> x.Present() && x in cs
    requires forall x :: x in cs ==> x.Rank() < s.Rank()
    ensures RankOrdered(a + When(s))
    ensures forall x :: x in a + When(s) <==> x.Present() && x in cs + [s]
  {
    var r := a + When(s);
    forall i, j | 0 <= i < j < |r|
      ensures r[i].Rank() < r[j].Rank()
    {
      if j == |a| {
        assert r[i] in a;
      }
    }
  }

  /** Every section the item could have, in page order. */
  function Candidates(item: Item): (r: seq<Section>)
    ensures |r| == 5
    ensures forall k :: 0 <= k < 5 ==> r[k].Rank() == k
  {
    [ InheritanceSection(Inheritance(item)), SummarySection(Summary(item)), SyntaxSection(SyntaxContent(item)),
      ParametersSection(Parameters(item)), ReturnsSection(Returns(item)) ]
  }

  /** The sections of an item's page, in page order. */
  function Sections(item: Item): seq<Section>
  {
    PageSections(Inheritance(item), Summary(item), SyntaxContent(item), Parameters(item), Returns(item))
  }

  function MarkdownOf(sections: seq<Section>): (r: seq<string>)
    ensures |r| == |sections|
  {
    seq(|sections|, i requires 0 <= i < |sections| => sections[i].Markdown())
  }

  /**
   * The lines every page starts with: the frontmatter (page id and quoted
   * title between two `---` lines), a blank line, `# name`, a blank line, the
   * type line and a blank line.
   */
  function HeaderLines(item: Item, digest: string -> HexDigest): (r: seq<string>)
    ensures |r| == 9
  {
    [ "---\n",
      "id: " + SanitizeId(Uid(item), digest) + "\n",
      "title: " + EscapeYamlString(DisplayName(item)) + "\n",
      "---\n",
      "\n",
      "# " + DisplayName(item) + "\n",
      "\n",
      "**Type**: " + ItemType(item) + "\n",
      "\n" ]
  }

  /** The pieces of an item's page, in the order they are written. */
  function Blocks(item: Item, digest: string -> HexDigest): seq<string>
  {
    HeaderLines(item, digest) + MarkdownOf(Sections(item))
  }

  /** The Markdown text written for an item. */
  function Page(item: Item, digest: string -> HexDigest): string
  {
    Concat(Blocks(item, digest))
  }

  /** The name of the file the page is written to. */
  function OutputFilename(item: Item, digest: string -> HexDigest): string
  {
    SanitizeFilename(Uid(item), digest) + ".md"
  }

  /** The file name is the sanitised uid plus ".md": at most 103 characters, no illegal one before the suffix. */
  lemma OutputFilenameShape(item: Item, digest: string -> HexDigest)
    ensures var r := OutputFilename(item, digest);
      && 3 <= |r| <= MaxLength + 3
      && r[|r| - 3..] == ".md"
      && r[..|r| - 3] == SanitizeFilename(Uid(item), digest)
      && forall i :: 0 <= i < |r| - 3 ==> r[i] !in FilenameIllegal
  {
    var stem := SanitizeFilename(Uid(item), digest);
    SanitizeFilenameShape(Uid(item), digest);
    var r := stem + ".md";
    assert r[..|r| - 3] == stem;
    assert forall i :: 0 <= i < |r| - 3 ==> r[i] == stem[i];
  }

  // ---------------------------------------------------------------- properties of the layout

  /**
   * Sections appear in the fixed order Inheritance, Summary, Syntax,
   * Parameters, Returns, and the section of each rank is there exactly when
   * the item's field behind it is non-empty.
   */
  lemma SectionsInOrder(item: Item)
    ensures RankOrdered(Sections(item))
    ensures forall rank: nat :: HasSection(item, rank) <==> exists s :: s in Sections(item) && s.Rank() == rank
  {
    SectionsMembers(item);
    forall rank: nat
      ensures HasSection(item, rank) <==> exists s :: s in Sections(item) && s.Rank() == rank
    {
      SectionOfRank(item, rank);
    }
  }

  /** The sections of a page are ordered, and they are exactly the candidates whose field is non-empty. */
  lemma SectionsMembers(item: Item)
    ensures RankOrdered(Sections(item))
    ensures forall x :: x in Sections(item) <==> x.Present() && x in Candidates(item)
  {
    var c0, c1, c2, c3, c4 := InheritanceSection(Inheritance(item)), SummarySection(Summary(item)),
      SyntaxSection(SyntaxContent(item)), ParametersSection(Parameters(item)), ReturnsSection(Returns(item));
    AppendWhen([], [], c0);
    assert [] + When(c0) == When(c0) && [] + [c0] == [c0];
    AppendWhen(When(c0), [c0], c1);
    AppendWhen(When(c0) + When(c1), [c0] + [c1], c2);
    AppendWhen(When(c0) + When(c1) + When(c2), [c0] + [c1] + [c2], c3);
    AppendWhen(When(c0) + When(c1) + When(c2) + When(c3), [c0] + [c1] + [c2] + [c3], c4);
    assert [c0] + [c1] + [c2] + [c3] + [c4] == Candidates(item);
  }

  lemma SectionOfRank(item: Item, rank: nat)
    requires forall x :: x in Sections(item) <==> x.Present() && x in Candidates(item)
    ensures HasSection(item, rank) <==> exists s :: s in Sections(item) && s.Rank() == rank
  {
    var c := Candidates(item);
    if rank < 5 {
      assert HasSection(item, rank) <==> c[rank].Present();
      if HasSection(item, rank) {
        assert c[rank] in Sections(item);
      }
    }
  }

  /**
   * The page is its blocks laid end to end: each header line and then each
   * section's Markdown occurs unchanged at its own offset, later blocks later.
   */
  lemma PageBlockAt(item: Item, digest: string -> HexDigest, k: nat)
    requires k < |Blocks(item, digest)|
    ensures var page, blocks := Page(item, digest), Blocks(item, digest);
      && Offset(blocks, k) + |blocks[k]| == Offset(blocks, k + 1) <= |page|
      && page[Offset(blocks, k)..Offset(blocks, k + 1)] == blocks[k]
  {
    ConcatAt(Blocks(item, digest), k);
  }

  /**
   * The header opens with the frontmatter line `---`; its id line carries no
   * ':' and its title line holds a quoted value that reads back as the
   * displayed name.
   */
  lemma HeaderFrontmatter(item: Item, digest: string -> HexDigest)
    ensures HeaderLines(item, digest)[0] == "---\n" == HeaderLines(item, digest)[3]
    ensures var id := HeaderLines(item, digest)[1];
      && |id| >= 5 && id[..4] == "id: " && id[|id| - 1] == '\n' && ':' !in id[4..|id| - 1]
    ensures var title := HeaderLines(item, digest)[2];
      && |title| >= 8 && title[..7] == "title: " && title[|title| - 1] == '\n'
      && UnquoteYamlString(title[7..|title| - 1]) == Some(DisplayName(item))
  {
    var sid, esc := SanitizeId(Uid(item), digest), EscapeYamlString(DisplayName(item));
    SanitizeIdShape(Uid(item), digest);
    LinePieces("id: ", sid);
    LinePieces("title: ", esc);
    EscapeYamlStringRoundTrip(DisplayName(item));
  }

  lemma LinePieces(key: string, value: string)
    ensures var line := key + value + "\n";
      && line[..|key|] == key && line[|line| - 1] == '\n' && line[|key|..|line| - 1] == value
  {
    var line := key + value + "\n";
    assert line[|key|..|line| - 1] == value;
  }

  /** Each section's Markdown is the block right after the header lines and those of earlier sections. */
  lemma PageSectionAt(item: Item, digest: string -> HexDigest, i: nat)
    requires i < |Sections(item)|
    ensures var page, blocks, k := Page(item, digest), Blocks(item, digest), |HeaderLines(item, digest)| + i;
      && Offset(blocks, k) + |Sections(item)[i].Markdown()| == Offset(blocks, k + 1) <= |page|
      && page[Offset(blocks, k)..Offset(blocks, k + 1)] == Sections(item)[i].Markdown()
  {
    PageBlockAt(item, digest, |HeaderLines(item, digest)| + i);
  }

  /** The Parameters section holds one bullet per parameter, in order; missing keys render empty. */
  lemma ParameterBulletAt(ps: seq<Parameter>, i: nat)
    requires i < |ps|
    ensures var md, lines, k := ParametersSection(ps).Markdown(), ParameterLines(ps), |ParametersHeading|;
      && k + Offset(lines, i) + |lines[i]| == k + Offset(lines, i + 1) <= |md|
      && md[k + Offset(lines, i)..k + Offset(lines, i + 1)]
         == "- **" + ps[i].id.GetOr("") + "** (" + ps[i].paramType.GetOr("") + "): " + ps[i].description.GetOr("") + "\n"
  {
    var lines := ParameterLines(ps);
    ConcatAt(lines, i);
    var md := ParametersSection(ps).Markdown();
    assert md[|ParametersHeading| + Offset(lines, i)..|ParametersHeading| + Offset(lines, i + 1)]
        == Concat(lines)[Offset(lines, i)..Offset(lines, i + 1)];
  }

  /** The Inheritance section lists its entries in input order, one separator between neighbours. */
  lemma InheritanceEntryAt(entries: seq<string>, i: nat)
    requires i < |entries|
    ensures var md, k, o := InheritanceSection(entries).Markdown(), |InheritanceHeading|, JoinOffset(entries, InheritanceSeparator, i);
      && k + o + |entries[i]| <= |md|
      && md[k + o..k + o + |entries[i]|] == entries[i]
      && (i + 1 < |entries| ==>
            && k + o + |entries[i]| + |InheritanceSeparator| <= |md|
            && md[k + o + |entries[i]|..k + o + |entries[i]| + |InheritanceSeparator|] == InheritanceSeparator)
  {
    JoinAt(entries, InheritanceSeparator, i);
    var md := InheritanceSection(entries).Markdown();
    var j := Join(entries, InheritanceSeparator);
    var k := |InheritanceHeading|;
    var o := JoinOffset(entries, InheritanceSeparator, i);
    assert md[k + o..k + o + |entries[i]|] == j[o..o + |entries[i]|];
    if i + 1 < |entries| {
      assert md[k + o + |entries[i]|..k + o + |entries[i]| + |InheritanceSeparator|]
          == j[o + |entries[i]|..JoinOffset(entries, InheritanceSeparator, i + 1)];
    }
  }

  /** The page id never contains ':', so the converter's "UNSAFE ID" warning never fires. */
  lemma UnsafeIdNeverReported(item: Item, digest: string -> HexDigest)
    ensures ':' !in SanitizeId(Uid(item), digest)
  {
    SanitizeIdShape(Uid(item), digest);
  }

  /**
   * File names are not unique: two uids that differ only in deleted characters
   * get different page ids but the same file name, so the later write replaces
   * the earlier page. Here a method `M()` and a member `M`; overloads such as
   * `M(System.Int32[])` and `M(System.Int32)` collide the same way.
   */
  lemma FilenamesCollide(digest: string -> HexDigest)
    ensures var a, b := Item(Some("M()"), None, None, None, None, None, None),
                        Item(Some("M"), None, None, None, None, None, None);
      && OutputFilename(a, digest) == OutputFilename(b, digest)
      && SanitizeId(Uid(a), digest) != SanitizeId(Uid(b), digest)
  {
    assert StripIllegal("M()") == "M" by {
      assert "M()"[1..] == "()" && "()"[1..] == ")" && ")"[1..] == "";
    }
    assert StripIllegal("M") == "M" by {
      assert "M"[1..] == "";
    }
  }

  // ---------------------------------------------------------------- the renderer

  /** What the converter writes for one candidate section: its Markdown when present, nothing otherwise. */
  function Emit(s: Section): string
  {
    if s.Present() then s.Markdown() else ""
  }

  lemma AppendSection(emitted: seq<Section>, s: Section)
    ensures Concat(MarkdownOf(emitted + When(s))) == Concat(MarkdownOf(emitted)) + Emit(s)
  {
    if s.Present() {
      assert MarkdownOf(emitted + [s]) == MarkdownOf(emitted) + [s.Markdown()];
      ConcatAppend(MarkdownOf(emitted), s.Markdown());
    } else {
      assert emitted + When(s) == emitted;
    }
  }

  /** Nine lines laid end to end. */
  lemma ConcatNine(l0: string, l1: string, l2: string, l3: string, l4: string, l5: string, l6: string, l7: string, l8: string)
    ensures Concat([l0, l1, l2, l3, l4, l5, l6, l7, l8]) == l0 + l1 + l2 + l3 + l4 + l5 + l6 + l7 + l8
  {
    var ls := [l0, l1, l2, l3, l4, l5, l6, l7, l8];
    assert ls == [l0, l1, l2, l3, l4, l5, l6, l7] + [l8];
    ConcatAppend([l0, l1, l2, l3, l4, l5, l6, l7], l8);
    assert [l0, l1, l2, l3, l4, l5, l6, l7] == [l0, l1, l2, l3, l4, l5, l6] + [l7];
    ConcatAppend([l0, l1, l2, l3, l4, l5, l6], l7);
    assert [l0, l1, l2, l3, l4, l5, l6] == [l0, l1, l2, l3, l4, l5] + [l6];
    ConcatAppend([l0, l1, l2, l3, l4, l5], l6);
    assert [l0, l1, l2, l3, l4, l5] == [l0, l1, l2, l3, l4] + [l5];
    ConcatAppend([l0, l1, l2, l3, l4], l5);
    assert [l0, l1, l2, l3, l4] == [l0, l1, l2, l3] + [l4];
    ConcatAppend([l0, l1, l2, l3], l4);
    assert [l0, l1, l2, l3] == [l0, l1, l2] + [l3];
    ConcatAppend([l0, l1, l2], l3);
    assert [l0, l1, l2] == [l0, l1] + [l2];
    ConcatAppend([l0, l1], l2);
    assert [l0, l1] == [l0] + [l1];
    ConcatAppend([l0], l1);
    assert [l0] == [] + [l0];
    ConcatAppend([], l0);
  }

  /** One `if` of the loop body: appends the section's Markdown to `md` when its field is non-empty. */
  method EmitSection(md: string, s: Section) returns (r: string)
    ensures r == md + Emit(s)
  {
    r := md;
    match s
    case InheritanceSection(inheritance) =>
      if |inheritance| > 0 {
        r := r + InheritanceHeading;
        r := r + (Join(inheritance, InheritanceSeparator) + "\n\n");
        AppendAssoc(md, InheritanceHeading, Join(inheritance, InheritanceSeparator) + "\n\n");
      }
    case SummarySection(summary) =>
      if |summary| > 0 {
        r := r + ("## Summary\n" + summary + "\n\n");
      }
    case SyntaxSection(syntax) =>
      if |syntax| > 0 {
        r := r + ("## Syntax\n```csharp\n" + syntax + "\n```\n\n");
      }
    case ParametersSection(parameters) =>
      if |parameters| > 0 {
        r := r + ParametersHeading;
        r := AppendParameterLines(r, parameters);
        r := r + "\n";
        ghost var bullets := Concat(ParameterLines(parameters));
        AppendAssoc(md, ParametersHeading, bullets);
        AppendAssoc(md, ParametersHeading + bullets, "\n");
      }
    case ReturnsSection(returnsInfo) =>
      if |returnsInfo| > 0 {
        r := r + ("## Returns\n\n" + returnsInfo + "\n");
      }
  }

  /** The inner loop over `syntax.parameters`: one bullet per parameter, in order. */
  method AppendParameterLines(md: string, parameters: seq<Parameter>) returns (r: string)
    ensures r == md + Concat(ParameterLines(parameters))
  {
    r := md;
    for i := 0 to |parameters|
      invariant r == md + Concat(ParameterLines(parameters[..i]))
    {
      var param := parameters[i];
      var pname := param.id.GetOr("");
      var ptype := param.paramType.GetOr("");
      var pdesc := param.description.GetOr("");
      ParameterLinesSnoc(parameters, i);
      AppendAssoc(md, Concat(ParameterLines(parameters[..i])), ParameterLine(param));
      r := r + ("- **" + pname + "** (" + ptype + "): " + pdesc + "\n");
    }
    assert parameters[..|parameters|] == parameters;
  }

  lemma ParameterLinesSnoc(ps: seq<Parameter>, i: nat)
    requires i < |ps|
    ensures Concat(ParameterLines(ps[..i + 1])) == Concat(ParameterLines(ps[..i])) + ParameterLine(ps[i])
  {
    assert ParameterLines(ps[..i + 1]) == ParameterLines(ps[..i]) + [ParameterLine(ps[i])];
    ConcatAppend(ParameterLines(ps[..i]), ParameterLine(ps[i]));
  }

  /**
   * The `if` chain of the loop body: appends to `md` each section whose field
   * is non-empty, in page order.
   */
  method AppendSections(md0: string, inheritance: seq<string>, summary: string, syntax: string,
                        parameters: seq<Parameter>, returnsInfo: string) returns (md: string)
    ensures md == md0 + Concat(MarkdownOf(PageSections(inheritance, summary, syntax, parameters, returnsInfo)))
  {
    var c0, c1, c2, c3, c4 := InheritanceSection(inheritance), SummarySection(summary),
      SyntaxSection(syntax), ParametersSection(parameters), ReturnsSection(returnsInfo);
    md := EmitSection(md0, c0);
    AppendSection([], c0);
    assert [] + When(c0) == When(c0);
    ghost var w := When(c0);
    md := AppendNext(md0, md, w, c1);
    w := w + When(c1);
    md := AppendNext(md0, md, w, c2);
    w := w + When(c2);
    md := AppendNext(md0, md, w, c3);
    w := w + When(c3);
    md := AppendNext(md0, md, w, c4);
  }

  /** One more `if` of the chain, with the page so far the text of the sections already emitted. */
  method AppendNext(md0: string, md: string, ghost emitted: seq<Section>, s: Section) returns (r: string)
    requires md == md0 + Concat(MarkdownOf(emitted))
    ensures r == md0 + Concat(MarkdownOf(emitted + When(s)))
  {
    r := EmitSection(md, s);
    AppendSection(emitted, s);
    AppendAssoc(md0, Concat(MarkdownOf(emitted)), Emit(s));
  }

  /** The loop body of the converter for one item: builds the page text and picks the file name. */
  method RenderItem(item: Item, digest: string -> HexDigest) returns (md: string, outputFilename: string)
    ensures md == Page(item, digest)
    ensures outputFilename == OutputFilename(item, digest)
  {
    var uid := Uid(item);
    var name := DisplayName(item);
    var itemType := ItemType(item);
    var summary := Summary(item);
    var syntax := SyntaxContent(item);
    var parameters := Parameters(item);
    var returnsInfo := Returns(item);
    var inheritance := Inheritance(item);

    var sanitizedId := SanitizeId(uid, digest);

    md := "---\n" + ("id: " + sanitizedId + "\n") + ("title: " + EscapeYamlString(name) + "\n") + "---\n"
      + "\n" + ("# " + name + "\n") + "\n" + ("**Type**: " + itemType + "\n") + "\n";
    ghost var header := HeaderLines(item, digest);
    ConcatNine(header[0], header[1], header[2], header[3], header[4], header[5], header[6], header[7], header[8]);

    md := AppendSections(md, inheritance, summary, syntax, parameters, returnsInfo);
    ConcatPlus(header, MarkdownOf(Sections(item)));

    outputFilename := SanitizeFilename(uid, digest) + ".md";
  }

  /** One file write: its name and its content. */
  datatype OutputFile = OutputFile(filename: string, content: string)

  /** The loop over `data['items']` of one YAML file: the writes it issues, in order. */
  method RenderItems(items: seq<Item>, digest: string -> HexDigest) returns (writes: seq<OutputFile>)
    ensures |writes| == |items|
    ensures forall i :: 0 <= i < |items| ==>
      writes[i] == OutputFile(OutputFilename(items[i], digest), Page(items[i], digest))
  {
    writes := [];
    for i := 0 to |items|
      invariant |writes| == i
      invariant forall j :: 0 <= j < i ==>
        writes[j] == OutputFile(OutputFilename(items[j], digest), Page(items[j], digest))
    {
      var md, outputFilename := RenderItem(items[i], digest);
      writes := writes + [OutputFile(outputFilename, md)];
    }
  }
}
