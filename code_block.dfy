/** The `CodeBlock` component: a wrapper `div` whose class depends on the
    block type and an extra class name, with an optional bold title above
    its children. */
module CodeBlock {
  import opened Strings
  import opened Options

  /** The `type` prop: `'code' | 'result'`. */
  datatype BlockType = CodeType | ResultType

  /** What the component renders: the wrapper's class attribute, the title
      element when there is one, and the children, untouched. */
  datatype Block<T> = Block(className: string, title: Option<string>, children: T)

  /** Default of the `type` prop. */
  const DefaultType: BlockType := CodeType

  /** Default of the `className` prop. */
  const DefaultClassName: string := ""

  /** The class chosen by the block type alone. */
  function KindClass(blockType: BlockType): string
  {
    if blockType == ResultType then "result-block" else "code-block"
  }

  /** The wrapper's class attribute: the kind class and the extra class name
      joined by a space, then trimmed. */
  function ClassNameOf(blockType: BlockType, className: string): string
  {
    Trim(KindClass(blockType) + " " + className)
  }

  /** The trimmed class attribute is the kind class alone when the extra
      class name is blank, and otherwise the kind class, a space and the extra
      class name without its trailing whitespace (its leading whitespace
      stays). */
  lemma {:induction false} ClassNameShape(blockType: BlockType, className: string)
    ensures ClassNameOf(blockType, className)
      == if AllWhitespace(className) then KindClass(blockType)
         else KindClass(blockType) + " " + TrimEnd(className)
  {
    var kind := KindClass(blockType);
    KindClassShape(blockType);
    var s := kind + " " + className;
    assert s == (kind + " ") + className;
    assert s[0] == kind[0];
    assert TrimStart(s) == s;
    TrimEndAppend(kind + " ", className);
    if AllWhitespace(className) {
      assert AllWhitespace(" ") by { assert " "[0] == ' '; }
      TrimEndAppend(kind, " ");
    }
  }

  /** The kind class starts and ends with a non-space and its trimming is itself. */
  lemma KindClassShape(blockType: BlockType)
    ensures var kind := KindClass(blockType);
      && |kind| > 0 && !IsWhitespace(kind[0]) && TrimEnd(kind) == kind
  {
    var kind := KindClass(blockType);
    assert kind[|kind| - 1] == 'k';
  }

  /** With the default extra class name, the class attribute is exactly
      "result-block" for a result block and "code-block" otherwise. */
  lemma DefaultClassNameIsKindClass(blockType: BlockType)
    ensures ClassNameOf(blockType, DefaultClassName)
      == if blockType == ResultType then "result-block" else "code-block"
  {
    ClassNameShape(blockType, DefaultClassName);
  }

  /** Renders a code block. The title appears exactly when it is given and
      non-empty (an empty string is falsy), and the children come after it
      unchanged. */
  function Render<T>(children: T, className: string, blockType: BlockType, title: Option<string>): (b: Block<T>)
    ensures b.children == children
    ensures b.title.Some? <==> title.Some? && title.value != ""
    ensures b.title.Some? ==> b.title == title
    ensures b.className == ClassNameOf(blockType, className)
  {
    var shownTitle := if title.Some? && title.value != "" then title else None;
    Block(ClassNameOf(blockType, className), shownTitle, children)
  }
}
