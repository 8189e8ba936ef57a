/** The event filter between the Markdown parser and the HTML writer (`src/markdown.rs`). */
module MarkdownEvents {
  import opened Wrappers

  datatype HeadingLevel = H1 | H2 | H3 | H4 | H5 | H6

  datatype Tag =
    | Heading(level: HeadingLevel, id: Option<string>, classes: seq<string>, attrs: seq<(string, Option<string>)>)
    | Image(destination: string, title: string)
    | Container(kind: nat, detail: string)  // every other tag

  datatype TagEnd =
    | HeadingEnd(level: HeadingLevel)
    | ImageEnd
    | ContainerEnd(kind: nat)

  datatype Event =
    | Start(tag: Tag)
    | End(end: TagEnd)
    | Text(source: string)
    | Html(source: string)
    | InlineHtml(source: string)
    | Leaf(kind: nat, detail: string)       // every other event

  function EndOf(tag: Tag): TagEnd {
    match tag
    case Heading(level, _, _, _) => HeadingEnd(level)
    case Image(_, _) => ImageEnd
    case Container(kind, _) => ContainerEnd(kind)
  }

  function NestedHeading(level: HeadingLevel): HeadingLevel {
    match level
    case H1 => H2
    case H2 => H3
    case H3 => H4
    case H4 => H5
    case H5 => H6
    case H6 => H6
  }

  function SafeEvent(event: Event): Option<Event> {
    match event
    case Html(source) => Some(Text(source))
    case InlineHtml(source) => Some(Text(source))
    case Start(Heading(level, id, classes, attrs)) => Some(Start(Heading(NestedHeading(level), id, classes, attrs)))
    case End(HeadingEnd(level)) => Some(End(HeadingEnd(NestedHeading(level))))
    case Start(Image(_, _)) => None
    case End(ImageEnd) => None
    case _ => Some(event)
  }

  /** The parser's events as the HTML writer gets them. */
  function SafeEvents(events: seq<Event>): seq<Event> {
    if events == [] then []
    else
      match SafeEvent(events[0])
      case Some(event) => [event] + SafeEvents(events[1..])
      case None => SafeEvents(events[1..])
  }

  // Nesting

  /** The ends that are still to come after an event, innermost first; none if it closes the wrong tag. */
  function OpenAfter(event: Event, open: seq<TagEnd>): Option<seq<TagEnd>> {
    match event
    case Start(tag) => Some([EndOf(tag)] + open)
    case End(end) => if open != [] && open[0] == end then Some(open[1..]) else None
    case _ => Some(open)
  }

  function OpenAfterAll(events: seq<Event>, open: seq<TagEnd>): Option<seq<TagEnd>> {
    if events == [] then Some(open)
    else
      match OpenAfter(events[0], open)
      case Some(later) => OpenAfterAll(events[1..], later)
      case None => None
  }

  /** Every end closes the innermost open tag, at its own heading level, and nothing stays open. */
  predicate WellNested(events: seq<Event>) {
    OpenAfterAll(events, []) == Some([])
  }

  /** The open tags as the HTML writer sees them: without images, headings one level down. */
  function SafeEnds(open: seq<TagEnd>): seq<TagEnd> {
    if open == [] then []
    else
      match open[0]
      case ImageEnd => SafeEnds(open[1..])
      case HeadingEnd(level) => [HeadingEnd(NestedHeading(level))] + SafeEnds(open[1..])
      case ContainerEnd(_) => [open[0]] + SafeEnds(open[1..])
  }

  // Content

  /** A piece of content and the tags around it, innermost first. */
  datatype Placed = PlacedText(text: string, around: seq<TagEnd>) | PlacedLeaf(kind: nat, detail: string, around: seq<TagEnd>)

  function PlacedBy(event: Event, open: seq<TagEnd>): seq<Placed> {
    match event
    case Text(source) => [PlacedText(source, open)]
    case Html(source) => [PlacedText(source, open)]
    case InlineHtml(source) => [PlacedText(source, open)]
    case Leaf(kind, detail) => [PlacedLeaf(kind, detail, open)]
    case _ => []
  }

  /** What a stream of events puts where, in order. */
  function Content(events: seq<Event>, open: seq<TagEnd>): seq<Placed> {
    if events == [] then []
    else
      PlacedBy(events[0], open) +
      match OpenAfter(events[0], open)
      case Some(later) => Content(events[1..], later)
      case None => []
  }

  function SafePlaced(placed: Placed): Placed {
    match placed
    case PlacedText(text, around) => PlacedText(text, SafeEnds(around))
    case PlacedLeaf(kind, detail, around) => PlacedLeaf(kind, detail, SafeEnds(around))
  }

  function SafeContent(content: seq<Placed>): seq<Placed> {
    if content == [] then [] else [SafePlaced(content[0])] + SafeContent(content[1..])
  }

  // Properties

  /** One event, filtered, does to the filtered stack what it did to the stack. */
  lemma SafeEventOpens(event: Event, open: seq<TagEnd>)
    requires OpenAfter(event, open).Some?
    ensures var later := SafeEnds(OpenAfter(event, open).value);
            match SafeEvent(event)
            case Some(safe) => OpenAfter(safe, SafeEnds(open)) == Some(later)
            case None => later == SafeEnds(open)
  {
    if event.Start? {
      assert ([EndOf(event.tag)] + open)[1..] == open;
    }
  }

  lemma SafeEventPlaces(event: Event, open: seq<TagEnd>)
    ensures SafeContent(PlacedBy(event, open)) ==
            match SafeEvent(event)
            case Some(safe) => PlacedBy(safe, SafeEnds(open))
            case None => []
  {
  }

  lemma {:induction false} SafeContentOfMore(a: seq<Placed>, b: seq<Placed>)
    ensures SafeContent(a + b) == SafeContent(a) + SafeContent(b)
  {
    if a == [] {
      assert a + b == b;
    } else {
      assert (a + b)[1..] == a[1..] + b;
      SafeContentOfMore(a[1..], b);
    }
  }

  /** The filter commutes with opening and closing tags, and with placing content. */
  lemma {:induction false} SafeEventsNest(events: seq<Event>, open: seq<TagEnd>)
    requires OpenAfterAll(events, open).Some?
    ensures OpenAfterAll(SafeEvents(events), SafeEnds(open)) == Some(SafeEnds(OpenAfterAll(events, open).value))
    ensures Content(SafeEvents(events), SafeEnds(open)) == SafeContent(Content(events, open))
  {
    hide OpenAfter, SafeEvent, PlacedBy, SafeEnds;
    if events != [] {
      var event, rest := events[0], events[1..];
      var later := OpenAfter(event, open).value;
      SafeEventOpens(event, open);
      SafeEventPlaces(event, open);
      SafeContentOfMore(PlacedBy(event, open), Content(rest, later));
      SafeEventsNest(rest, later);
      if SafeEvent(event).Some? {
        assert ([SafeEvent(event).value] + SafeEvents(rest))[1..] == SafeEvents(rest);
      }
    }
  }

  /**
   A well-nested stream stays well-nested, and the same content comes in the same order,
   each piece inside the same tags but for images and the level of headings.
   */
  lemma SafeEventsKeepNesting(events: seq<Event>)
    requires WellNested(events)
    ensures WellNested(SafeEvents(events))
    ensures Content(SafeEvents(events), []) == SafeContent(Content(events, []))
  {
    SafeEventsNest(events, []);
  }

  predicate IsSafe(event: Event) {
    match event
    case Html(_) => false
    case InlineHtml(_) => false
    case Start(Heading(level, _, _, _)) => level != H1
    case End(HeadingEnd(level)) => level != H1
    case Start(Image(_, _)) => false
    case End(ImageEnd) => false
    case _ => true
  }

  /** No raw HTML, no image and no top-level heading is left, in any stream. */
  lemma {:induction false} SafeEventsAreSafe(events: seq<Event>)
    ensures forall event :: event in SafeEvents(events) ==> IsSafe(event)
  {
    if events != [] {
      SafeEventsAreSafe(events[1..]);
    }
  }

  // Event by event

  function Rank(level: HeadingLevel): (rank: nat) {
    match level
    case H1 => 1
    case H2 => 2
    case H3 => 3
    case H4 => 4
    case H5 => 5
    case H6 => 6
  }

  /** The events of a stream without the tags of images. */
  function WithoutImages(events: seq<Event>): seq<Event> {
    if events == [] then []
    else
      var image := (events[0].Start? && events[0].tag.Image?) || (events[0].End? && events[0].end.ImageEnd?);
      (if image then [] else [events[0]]) + WithoutImages(events[1..])
  }

  /** One level down, as far as there is one. */
  predicate OneDown(before: HeadingLevel, after: HeadingLevel) {
    Rank(after) == if Rank(before) == 6 then 6 else Rank(before) + 1
  }

  /**
   What the writer gets for an event: raw HTML as text, a heading one level down with its
   identifier, classes and attributes, and everything else as it was.
   */
  predicate Rewritten(before: Event, after: Event) {
    match before
    case Html(source) => after == Text(source)
    case InlineHtml(source) => after == Text(source)
    case Start(Heading(level, id, classes, attrs)) =>
      && after.Start? && after.tag.Heading?
      && OneDown(level, after.tag.level) && after.tag.id == id && after.tag.classes == classes && after.tag.attrs == attrs
    case End(HeadingEnd(level)) => after.End? && after.end.HeadingEnd? && OneDown(level, after.end.level)
    case _ => after == before
  }

  /** The filtered stream is the stream without images, each of its events rewritten in place. */
  lemma {:induction false} SafeEventsAreRewritten(events: seq<Event>)
    ensures |SafeEvents(events)| == |WithoutImages(events)|
    ensures forall i :: 0 <= i < |SafeEvents(events)| ==> Rewritten(WithoutImages(events)[i], SafeEvents(events)[i])
  {
    if events != [] {
      SafeEventsAreRewritten(events[1..]);
    }
  }

  function Payload(event: Event): seq<string> {
    if event.Text? || event.Html? || event.InlineHtml? then [event.source] else []
  }

  function Payloads(events: seq<Event>): seq<string> {
    if events == [] then [] else Payload(events[0]) + Payloads(events[1..])
  }

  /** Text and raw HTML all come through as text, in order, in any stream. */
  lemma {:induction false} SafeEventsKeepText(events: seq<Event>)
    ensures Payloads(SafeEvents(events)) == Payloads(events)
    ensures forall event :: event in SafeEvents(events) && Payload(event) != [] ==> event.Text?
  {
    if events != [] {
      SafeEventsKeepText(events[1..]);
      if SafeEvent(events[0]).Some? {
        assert ([SafeEvent(events[0]).value] + SafeEvents(events[1..]))[1..] == SafeEvents(events[1..]);
      }
    }
  }

  /** Headings keep their order and move down one level, as far as there is one. */
  lemma NestedHeadingRank(a: HeadingLevel, b: HeadingLevel)
    ensures Rank(NestedHeading(a)) == if Rank(a) < 6 then Rank(a) + 1 else 6
    ensures Rank(a) <= Rank(b) ==> Rank(NestedHeading(a)) <= Rank(NestedHeading(b))
    ensures NestedHeading(a) == NestedHeading(b) <==> a == b || (Rank(a) >= 5 && Rank(b) >= 5)
  {
  }
}
