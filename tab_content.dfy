/** The `TabContent` component and the tab data it renders: one card per code
    example, code shown as a preformatted block or inline, an optional result
    block (JSON whole, text line by line) and an optional list of concepts,
    each split into a bold term and its description. */
module TabContent {
  import opened Options
  import opened Strings
  import opened CodeBlock

  /** `sizeClass: "regular" | "large"`. */
  datatype SizeClass = Regular | Large

  function SizeClassName(size: SizeClass): string
  {
    if size == Large then "large" else "regular"
  }

  /** `type: "json" | "text"` of an example's result. */
  datatype ResultType = Json | Text

  /** An example's optional result. */
  datatype ExampleResult = ExampleResult(title: string, content: string, kind: ResultType)

  /** One code example of a tab. */
  datatype CodeExample = CodeExample(
    title: string,
    code: string,
    description: string,
    sizeClass: SizeClass,
    result: Option<ExampleResult>)

  /** A tab's optional list of concepts. */
  datatype Concepts = Concepts(title: string, items: seq<string>)

  /** One tab of a tabbed section. */
  datatype TabData = TabData(
    id: string,
    labelText: string,
    title: string,
    description: string,
    examples: seq<CodeExample>,
    concepts: Option<Concepts>)

  /** How code is shown: a `pre` block or an inline `code` element. */
  datatype CodeView = Pre(text: string) | InlineCode(text: string)

  /** How a result is shown: one `pre` block, or one paragraph per line. */
  datatype ResultBody = JsonPre(text: string) | TextLines(lines: seq<string>)

  /** One concept list item: the bold term (shown followed by a colon) and
      the plain description after it. */
  datatype ConceptLine = ConceptLine(term: string, description: string)

  /** The concepts block: its heading and its items. */
  datatype ConceptList = ConceptList(title: string, lines: seq<ConceptLine>)

  /** One example card: its class attribute, heading, code block, optional
      result block and description. */
  datatype Card = Card(
    className: string,
    heading: string,
    code: Block<CodeView>,
    result: Option<Block<ResultBody>>,
    description: string)

  /** What the component renders for a tab. */
  datatype TabView = TabView(
    title: string,
    description: string,
    cards: seq<Card>,
    concepts: Option<ConceptList>)

  /** Code holding a line break becomes a `pre` block, any other code inline
      `code`; the text itself is passed through unchanged. */
  function CodeLayout(code: string): (v: CodeView)
    ensures v.text == code
    ensures v.Pre? <==> '\n' in code
  {
    if '\n' in code then Pre(code) else InlineCode(code)
  }

  /** A JSON result is one block holding exactly its content; a text result
      becomes the lines of `content.split('\n')`: one more line than there
      are line breaks, none holding a line break, and joined by line breaks
      they give back the content. */
  function ResultLayout(result: ExampleResult): (b: ResultBody)
    ensures result.kind == Json ==> b == JsonPre(result.content)
    ensures result.kind == Text ==>
      && b.TextLines?
      && Join(b.lines, "\n") == result.content
      && |b.lines| == Count(result.content, '\n') + 1
      && forall i :: 0 <= i < |b.lines| ==> '\n' !in b.lines[i]
  {
    if result.kind == Json then JsonPre(result.content)
    else
      JoinSplit(result.content, '\n');
      SplitCount(result.content, '\n');
      SplitPiecesFree(result.content, '\n');
      TextLines(Split(result.content, '\n'))
  }

  /** Text lines without line breaks, joined by line breaks, are rendered
      back as exactly those lines. */
  lemma TextResultRoundTrip(title: string, lines: seq<string>)
    requires |lines| >= 1
    requires forall i :: 0 <= i < |lines| ==> '\n' !in lines[i]
    ensures ResultLayout(ExampleResult(title, Join(lines, "\n"), Text)) == TextLines(lines)
  {
    SplitJoin(lines, '\n');
  }

  /** A concept item split at its first colon: the term is everything before
      it and the description everything after it, later colons and leading
      space included. An item without a colon is all term, with an empty
      description. */
  function SplitConcept(item: string): (line: ConceptLine)
    ensures ':' !in line.term
    ensures ':' in item ==> line.term + ":" + line.description == item
    ensures ':' !in item ==> line.term == item && line.description == ""
  {
    var parts := Split(item, ':');
    JoinSplit(item, ':');
    SplitCount(item, ':');
    SplitPiecesFree(item, ':');
    var line := ConceptLine(parts[0], Join(parts[1..], ":"));
    if ':' in item then line
    else SplitNoSeparator(item, ':'); line
  }

  /** The text a concept item shows: the term, a colon, the description. */
  function ConceptText(line: ConceptLine): string
  {
    line.term + ":" + line.description
  }

  /** An item is shown exactly as written when it has a colon; an item
      without one is shown with a colon added after it. */
  lemma ConceptShownAsWritten(item: string)
    ensures ConceptText(SplitConcept(item)) == item <==> ':' in item
    ensures ':' !in item ==> ConceptText(SplitConcept(item)) == item + ":"
  {
    if ':' !in item {
      assert |ConceptText(SplitConcept(item))| == |item| + 1;
    }
  }

  /** One example card. Its class is "example-card" followed by the size
      class; the code sits in a plain code block; a result block, titled with
      the result's title, is there exactly when the example has a result. */
  function RenderCard(example: CodeExample): (card: Card)
    ensures card.heading == example.title && card.description == example.description
    ensures card.className == "example-card " + SizeClassName(example.sizeClass)
    ensures card.code.children == CodeLayout(example.code)
    ensures card.code.className == "code-block" && card.code.title == None
    ensures card.result.Some? <==> example.result.Some?
    ensures example.result.Some? ==>
      var block := card.result.value;
      && block.className == "result-block"
      && block.children == ResultLayout(example.result.value)
      && (block.title.Some? <==> example.result.value.title != "")
      && (block.title.Some? ==> block.title.value == example.result.value.title)
  {
    DefaultClassNameIsKindClass(CodeType);
    DefaultClassNameIsKindClass(ResultType);
    var code := Render(CodeLayout(example.code), DefaultClassName, DefaultType, None);
    var result :=
      match example.result
      case None => None
      case Some(r) => Some(Render(ResultLayout(r), DefaultClassName, ResultType, Some(r.title)));
    Card("example-card " + SizeClassName(example.sizeClass), example.title, code, result, example.description)
  }

  /** A card's class list holds "example-card", and "large" exactly for a
      large example. */
  lemma CardClassMarksSize(example: CodeExample)
    ensures HasClass(RenderCard(example).className, "example-card")
    ensures HasClass(RenderCard(example).className, "large") <==> example.sizeClass == Large
  {
    var size := SizeClassName(example.sizeClass);
    assert RenderCard(example).className == "example-card" + " " + size;
    ClassPairHas("example-card", size, "example-card");
    ClassPairHas("example-card", size, "large");
  }

  /** The whole tab: its title and description, one card per example in
      order, and a concepts block exactly when the tab has concepts, with one
      split item per concept in order. */
  function RenderTab(tab: TabData): (v: TabView)
    ensures v.title == tab.title && v.description == tab.description
    ensures |v.cards| == |tab.examples|
    ensures forall i :: 0 <= i < |v.cards| ==> v.cards[i] == RenderCard(tab.examples[i])
    ensures v.concepts.Some? <==> tab.concepts.Some?
    ensures tab.concepts.Some? ==>
      && v.concepts.value.title == tab.concepts.value.title
      && |v.concepts.value.lines| == |tab.concepts.value.items|
      && forall i :: 0 <= i < |v.concepts.value.lines| ==>
           v.concepts.value.lines[i] == SplitConcept(tab.concepts.value.items[i])
  {
    var cards := seq(|tab.examples|, i requires 0 <= i < |tab.examples| => RenderCard(tab.examples[i]));
    var concepts :=
      match tab.concepts
      case None => None
      case Some(c) =>
        Some(ConceptList(c.title, seq(|c.items|, i requires 0 <= i < |c.items| => SplitConcept(c.items[i]))));
    TabView(tab.title, tab.description, cards, concepts)
  }
}
