/**
 * The frame every page is drawn in: an optional header with an eyebrow line, a
 * title whose last word is set apart, and a subtitle, around padded content.
 */
module PageWrapper {
  import opened Common
  import opened Text

  /** The component's props; an absent text is `""`, which is falsy like `undefined`. */
  datatype Props = Props(title: string, subtitle: string, eyebrow: string, noPad: bool)

  datatype Padding = NoPadding | Css(value: string)

  /** The `h1`: the title and its bottom margin in pixels. */
  datatype Heading = Heading(text: string, marginBottom: nat)

  /** The header's texts; the `h1` is drawn only for a non-empty title. */
  datatype Header = Header(eyebrow: string, heading: Option<Heading>, subtitle: string)

  datatype Frame = Frame(padding: Padding, header: Option<Header>)

  const DefaultEyebrow := "MarketCore"

  /** The frame the props ask for. */
  function Layout(p: Props): (f: Frame)
    ensures f.padding == if p.noPad then NoPadding else Css("0 40px 80px")
    ensures f.header.Some? <==> p.title != "" || p.subtitle != ""
    ensures f.header.Some? ==> f.header.value.eyebrow != "" && f.header.value.subtitle == p.subtitle
    ensures f.header.Some? && p.eyebrow != "" ==> f.header.value.eyebrow == p.eyebrow
    ensures f.header.Some? && p.eyebrow == "" ==> f.header.value.eyebrow == DefaultEyebrow
    ensures f.header.Some? ==> (f.header.value.heading.Some? <==> p.title != "")
    ensures f.header.Some? && f.header.value.heading.Some? ==>
              && f.header.value.heading.value.text == p.title
              && (f.header.value.heading.value.marginBottom == 14 <==> p.subtitle != "")
              && f.header.value.heading.value.marginBottom in {0, 14}
  {
    Frame(
      if p.noPad then NoPadding else Css("0 40px 80px"),
      if p.title == "" && p.subtitle == "" then None
      else Some(Header(
        if p.eyebrow != "" then p.eyebrow else DefaultEyebrow,
        if p.title != "" then Some(Heading(p.title, if p.subtitle != "" then 14 else 0)) else None,
        p.subtitle)))
  }

  /** How the title is drawn: whole, or a prefix and a last word set in italics. */
  datatype TitleParts = Whole(text: string) | Parts(prefix: string, last: string)

  /** The title splitter: split on spaces, pop the last word, join the rest back. */
  method SplitTitle(title: string) returns (r: TitleParts)
    ensures r.Whole? <==> ' ' !in title
    ensures r.Whole? ==> r.text == title
    ensures r.Parts? ==> r.prefix + " " + r.last == title && ' ' !in r.last
  {
    var words := Split(title);
    SplitSingle(title);
    if |words| == 1 {
      return Whole(title);
    }
    JoinSplit(title);
    JoinLast(words);
    var last := words[|words| - 1];
    words := words[..|words| - 1];
    r := Parts(Join(words), last);
  }
}
