/** The TypeScript basics section: four tab buttons, the active tab's id as
    state, one of four panels shown at a time, and the example strings the
    panels build from the example values and classes. */
module TsBasics {
  import opened Strings
  import opened TabContent
  import Classes

  /** `type TabId = 'primitives' | 'interfaces' | 'types' | 'classes'`. */
  datatype TabId = PrimitivesTab | InterfacesTab | TypesTab | ClassesTab

  /** The string literal of each tab id. */
  function IdString(id: TabId): string
  {
    match id
    case PrimitivesTab => "primitives"
    case InterfacesTab => "interfaces"
    case TypesTab => "types"
    case ClassesTab => "classes"
  }

  /** Distinct tabs have distinct id strings, so comparing the strings, as
      the component does, is comparing the tabs. */
  lemma IdStringInjective(a: TabId, b: TabId)
    ensures IdString(a) == IdString(b) <==> a == b
  {
    if a != b {
      assert IdString(a)[0] != IdString(b)[0] || |IdString(a)| != |IdString(b)|;
    }
  }

  /** One button of the tab row. */
  datatype Tab = Tab(id: TabId, labelText: string)

  /** The tab row, in order. */
  const Tabs: seq<Tab> := [
    Tab(PrimitivesTab, "Primitive Types"),
    Tab(InterfacesTab, "Interfaces"),
    Tab(TypesTab, "Type Aliases"),
    Tab(ClassesTab, "Classes & OOP")
  ]

  /** The tab shown when the section mounts. */
  const InitialTab: TabId := PrimitivesTab

  /** The class attribute of a tab's button: "tab-button", and "active"
      exactly when its id string equals the active one's. */
  function ButtonClass(activeTab: TabId, tab: Tab): (c: string)
    ensures HasClass(c, "tab-button")
    ensures HasClass(c, "active") <==> activeTab == tab.id
  {
    IdStringInjective(activeTab, tab.id);
    var state := if IdString(activeTab) == IdString(tab.id) then "active" else "";
    ClassPairHas("tab-button", state, "tab-button");
    ClassPairHas("tab-button", state, "active");
    assert "tab-button " + state == "tab-button" + " " + state;
    "tab-button " + state
  }

  /** The class attributes of the button row, in tab order. */
  function ButtonClasses(activeTab: TabId): (row: seq<string>)
    ensures |row| == |Tabs|
    ensures forall i :: 0 <= i < |row| ==> (HasClass(row[i], "active") <==> Tabs[i].id == activeTab)
  {
    seq(|Tabs|, i requires 0 <= i < |Tabs| => ButtonClass(activeTab, Tabs[i]))
  }

  /** Whatever tab is active, exactly one button of the row is marked
      active: the one with that tab's id. */
  lemma ExactlyOneActiveButton(activeTab: TabId)
    ensures exists k :: 0 <= k < |Tabs| && Tabs[k].id == activeTab
    ensures forall i :: 0 <= i < |Tabs| ==>
      (HasClass(ButtonClasses(activeTab)[i], "active") <==> Tabs[i].id == activeTab)
    ensures forall i, j | 0 <= i < j < |Tabs| :: Tabs[i].id != Tabs[j].id
  {
    match activeTab
    case PrimitivesTab => assert Tabs[0].id == activeTab;
    case InterfacesTab => assert Tabs[1].id == activeTab;
    case TypesTab => assert Tabs[2].id == activeTab;
    case ClassesTab => assert Tabs[3].id == activeTab;
  }

  /** The panels rendered for the active tab: each of the four guarded
      panels, in order, that its guard lets through. The guards are
      exclusive and cover every id, so exactly the active one is shown. */
  function ShownPanels(activeTab: TabId): (shown: seq<TabId>)
    ensures shown == [activeTab]
  {
    (if activeTab == PrimitivesTab then [PrimitivesTab] else [])
    + (if activeTab == InterfacesTab then [InterfacesTab] else [])
    + (if activeTab == TypesTab then [TypesTab] else [])
    + (if activeTab == ClassesTab then [ClassesTab] else [])
  }

  /** The array example's values. */
  const ArrayExample: seq<nat> := [1, 2, 3, 4, 5]

  /** `values.join(', ')` for whole non-negative numbers. */
  function JoinNumbers(values: seq<nat>): string
  {
    Join(seq(|values|, i requires 0 <= i < |values| => NatToString(values[i])), ", ")
  }

  /** The array example's code line. */
  function ArrayExampleCode(): string
  {
    "const numbers: number[] = [" + JoinNumbers(ArrayExample) + "];"
  }

  /** The array example shows its values as "1, 2, 3, 4, 5". */
  lemma ArrayExampleShown()
    ensures JoinNumbers(ArrayExample) == "1, 2, 3, 4, 5"
    ensures ArrayExampleCode() == "const numbers: number[] = [1, 2, 3, 4, 5];"
  {
    ArrayExampleDigits();
    JoinedDigits();
  }

  lemma ArrayExampleDigits()
    ensures seq(|ArrayExample|, i requires 0 <= i < |ArrayExample| => NatToString(ArrayExample[i]))
         == ["1", "2", "3", "4", "5"]
  {
  }

  lemma JoinedDigits()
    ensures Join(["1", "2", "3", "4", "5"], ", ") == "1, 2, 3, 4, 5"
  {
    assert Join(["5"], ", ") == "5";
    assert Join(["4", "5"], ", ") == "4, 5" by { assert ["4", "5"][1..] == ["5"]; }
    assert Join(["3", "4", "5"], ", ") == "3, 4, 5" by { assert ["3", "4", "5"][1..] == ["4", "5"]; }
    assert Join(["2", "3", "4", "5"], ", ") == "2, 3, 4, 5" by { assert ["2", "3", "4", "5"][1..] == ["3", "4", "5"]; }
    assert ["1", "2", "3", "4", "5"][1..] == ["2", "3", "4", "5"];
  }

  /** The other primitive examples' values. */
  const StringExample: string := "Hello TypeScript!"
  const NumberExample: nat := 42
  const BooleanExample: bool := true
  const AnyExample: string := "This can be anything"

  /** `type Status = "pending" | "approved" | "rejected"`. */
  datatype Status = Pending | Approved | Rejected

  function StatusText(s: Status): string
  {
    match s
    case Pending => "pending"
    case Approved => "approved"
    case Rejected => "rejected"
  }

  /** The union example's status. */
  const CurrentStatus: Status := Approved

  /** A string value placed between two literal quote characters, as the
      panels write `"{value}"` and `'${value}'`: no escaping, no
      serialisation. */
  function Quoted(value: string, quote: char): (r: string)
    ensures |r| == |value| + 2
    ensures r[0] == quote && r[|r| - 1] == quote && r[1..|r| - 1] == value
  {
    [quote] + value + [quote]
  }

  /** `true.toString()` and `false.toString()`. */
  function BoolText(b: bool): (r: string)
    ensures r == "true" || r == "false"
    ensures r == "true" <==> b
  {
    if b then "true" else "false"
  }

  /** A declaration line `<head> = <shown>;`: the head, " = ", the value as
      shown, and a closing semicolon, each at a fixed place. */
  function DeclarationLine(head: string, shown: string): (line: string)
    ensures |line| == |head| + 3 + |shown| + 1
    ensures line[..|head|] == head && line[|head|..|head| + 3] == " = "
    ensures line[|head| + 3..|line| - 1] == shown && line[|line| - 1] == ';'
  {
    head + " = " + shown + ";"
  }

  /** The string example's code line. */
  function StringExampleCode(): string
  {
    DeclarationLine("const message: string", Quoted(StringExample, '"'))
  }

  /** The number example's code line. */
  function NumberExampleCode(): string
  {
    DeclarationLine("const count: number", NatToString(NumberExample))
  }

  /** The boolean example's code line. */
  function BooleanExampleCode(): string
  {
    DeclarationLine("const isValid: boolean", BoolText(BooleanExample))
  }

  /** The `any` example's code line. */
  function AnyExampleCode(): string
  {
    DeclarationLine("const value: any", Quoted(AnyExample, '"'))
  }

  /** The usage line of the union example. */
  function StatusLine(s: Status): string
  {
    DeclarationLine("const currentStatus: Status", Quoted(StatusText(s), '\''))
  }

  /** A quoted value is read back from its declaration line unchanged:
      between the quote after " = " and the quote before ";". */
  lemma {:induction false} QuotedValueReadsBack(head: string, value: string, quote: char)
    ensures var line := DeclarationLine(head, Quoted(value, quote));
      && |line| == |head| + |value| + 6
      && line[|head| + 3] == quote && line[|line| - 2] == quote
      && line[|head| + 4..|line| - 2] == value
  {
    var shown := Quoted(value, quote);
    var line := DeclarationLine(head, shown);
    assert line[|head| + 3..|line| - 1] == shown;
    assert line[|head| + 4..|line| - 2] == shown[1..|shown| - 1];
  }

  /** The string and `any` examples show their values exactly as written. */
  lemma StringExamplesShownVerbatim()
    ensures var line := StringExampleCode();
      line[|"const message: string"| + 4..|line| - 2] == StringExample
    ensures var line := AnyExampleCode();
      line[|"const value: any"| + 4..|line| - 2] == AnyExample
  {
    QuotedValueReadsBack("const message: string", StringExample, '"');
    QuotedValueReadsBack("const value: any", AnyExample, '"');
  }

  /** The number example shows the digits "42", which read back as its
      value, and the boolean example shows "true". */
  lemma NumberAndBooleanShown()
    ensures NatToString(NumberExample) == "42"
    ensures DecimalValue(NatToString(NumberExample)) == NumberExample
    ensures BoolText(BooleanExample) == "true"
    ensures NumberExampleCode() == "const count: number" + " = " + "42" + ";"
    ensures BooleanExampleCode() == "const isValid: boolean" + " = " + "true" + ";"
  {
    NatToStringValue(NumberExample);
  }

  /** The usage line names its status: different statuses give different
      lines, and the status's text stands between the quotes. */
  lemma StatusLineNamesStatus(a: Status, b: Status)
    ensures StatusLine(a) == StatusLine(b) <==> a == b
    ensures var line := StatusLine(a);
      line[|"const currentStatus: Status"| + 4..|line| - 2] == StatusText(a)
  {
    var head := "const currentStatus: Status";
    QuotedValueReadsBack(head, StatusText(a), '\'');
    QuotedValueReadsBack(head, StatusText(b), '\'');
    if StatusLine(a) == StatusLine(b) {
      assert StatusText(a) == StatusText(b);
      assert StatusText(a)[0] == StatusText(b)[0];
    }
  }

  /** The example animal and dog of the classes panel. */
  const ExampleAnimal: Classes.Animal := Classes.Animal("Generic Animal", 5)
  const ExampleDog: Classes.Animal := Classes.Dog("Buddy", 3, "Golden Retriever")

  /** The classes panel's line for an animal: what it says, then its age. */
  function AnimalLine(a: Classes.Animal): string
  {
    a.Speak() + " (Age: " + NatToString(a.GetAge()) + ")"
  }

  /** The classes panel's line for a dog: what it says, its age, its breed. */
  function DogLine(d: Classes.Animal): string
    requires d.Dog?
  {
    d.Speak() + " (Age: " + NatToString(d.GetAge()) + ", Breed: " + d.GetBreed() + ")"
  }

  /** The three parts of a concatenation can be sliced back out of it. */
  lemma SliceThree(head: string, middle: string, tail: string)
    ensures var s := head + middle + tail;
      && s[..|head|] == head
      && s[|head|..|head| + |middle|] == middle
      && s[|head| + |middle|..] == tail
  {
  }

  /** The two parts of a concatenation can be sliced back out of it. */
  lemma SliceTwo(front: string, back: string)
    ensures (front + back)[..|front|] == front && (front + back)[|front|..] == back
  {
  }

  /** An animal's line, written out. */
  lemma AnimalLineOf(name: string, age: nat)
    ensures AnimalLine(Classes.Animal(name, age)) == name + " makes a sound (Age: " + NatToString(age) + ")"
  {
    var digits := NatToString(age);
    assert AnimalLine(Classes.Animal(name, age)) == name + " makes a sound" + " (Age: " + digits + ")";
    assert " makes a sound" + " (Age: " == " makes a sound (Age: ";
    assert name + " makes a sound" + " (Age: " == name + (" makes a sound" + " (Age: ");
  }

  /** A dog's line, written out. */
  lemma DogLineOf(name: string, age: nat, breed: string)
    ensures DogLine(Classes.Dog(name, age, breed)) == name + " barks! (Age: " + NatToString(age) + ", Breed: " + breed + ")"
  {
    var digits := NatToString(age);
    assert DogLine(Classes.Dog(name, age, breed)) == name + " barks!" + " (Age: " + digits + ", Breed: " + breed + ")";
    assert " barks!" + " (Age: " == " barks! (Age: ";
    assert name + " barks!" + " (Age: " == name + (" barks!" + " (Age: ");
  }

  /** Lines built from a name and a breed without line breaks hold none. */
  lemma LinesHaveNoBreak(name: string, age: nat, breed: string)
    requires '\n' !in name && '\n' !in breed
    ensures '\n' !in AnimalLine(Classes.Animal(name, age))
    ensures '\n' !in DogLine(Classes.Dog(name, age, breed))
  {
    DigitsHaveNoBreak(age);
    FixedTextHasNoBreak();
    AnimalLineOf(name, age);
    DogLineOf(name, age, breed);
  }

  lemma DigitsHaveNoBreak(n: nat)
    ensures '\n' !in NatToString(n)
  {
    var digits := NatToString(n);
    forall i | 0 <= i < |digits| ensures digits[i] != '\n' {
    }
  }

  lemma FixedTextHasNoBreak()
    ensures '\n' !in " makes a sound (Age: " && '\n' !in " barks! (Age: "
    ensures '\n' !in ", Breed: " && '\n' !in ")"
  {
  }

  /** An animal's line holds its name first, and between the fixed text and
      the closing parenthesis the decimal digits of its age: the age can be
      read back from the line. */
  lemma AnimalLineReadsBack(name: string, age: nat)
    ensures var line := AnimalLine(Classes.Animal(name, age));
      && |line| > |name| + 21
      && line[..|name|] == name
      && line[|name|..|name| + 21] == " makes a sound (Age: "
      && line[|line| - 1] == ')'
      && (forall i :: |name| + 21 <= i < |line| - 1 ==> '0' <= line[i] <= '9')
      && DecimalValue(line[|name| + 21..|line| - 1]) == age
  {
    var head := name + " makes a sound (Age: ";
    var digits := NatToString(age);
    AnimalLineOf(name, age);
    NatToStringValue(age);
    SliceThree(head, digits, ")");
    SliceThree(name, " makes a sound (Age: ", []);
  }

  /** A dog's line holds its name first, then the decimal digits of its age,
      then its breed just before the closing parenthesis: age and breed can
      be read back from the line. */
  lemma DogLineReadsBack(name: string, age: nat, breed: string)
    ensures var line := DogLine(Classes.Dog(name, age, breed));
      var ageEnd := |line| - 1 - |breed| - 9;
      && |name| + 14 < ageEnd
      && line[..|name|] == name
      && line[|name|..|name| + 14] == " barks! (Age: "
      && (forall i :: |name| + 14 <= i < ageEnd ==> '0' <= line[i] <= '9')
      && DecimalValue(line[|name| + 14..ageEnd]) == age
      && line[ageEnd..|line| - 1 - |breed|] == ", Breed: "
      && line[|line| - 1 - |breed|..|line| - 1] == breed
      && line[|line| - 1] == ')'
  {
    DogLineOf(name, age, breed);
    NatToStringValue(age);
    DogLineParts(name, NatToString(age), age, breed);
  }

  /** The pieces of a line built like a dog's, sliced back out of it. */
  lemma DogLineParts(name: string, digits: string, age: nat, breed: string)
    requires |digits| >= 1 && forall i :: 0 <= i < |digits| ==> '0' <= digits[i] <= '9'
    requires DecimalValue(digits) == age
    ensures var line := name + " barks! (Age: " + digits + ", Breed: " + breed + ")";
      var ageEnd := |line| - 1 - |breed| - 9;
      && |name| + 14 < ageEnd
      && line[..|name|] == name
      && line[|name|..|name| + 14] == " barks! (Age: "
      && (forall i :: |name| + 14 <= i < ageEnd ==> '0' <= line[i] <= '9')
      && DecimalValue(line[|name| + 14..ageEnd]) == age
      && line[ageEnd..|line| - 1 - |breed|] == ", Breed: "
      && line[|line| - 1 - |breed|..|line| - 1] == breed
      && line[|line| - 1] == ')'
  {
    var head := name + " barks! (Age: ";
    var withAge := head + digits;
    var withLabel := withAge + ", Breed: ";
    var withBreed := withLabel + breed;
    var line := withBreed + ")";
    SliceTwo(withBreed, ")");
    SliceTwo(withLabel, breed);
    SliceTwo(withAge, ", Breed: ");
    SliceTwo(head, digits);
    SliceTwo(name, " barks! (Age: ");
    assert line[..|withBreed|][|withLabel|..] == line[|withLabel|..|withBreed|];
    assert line[..|withLabel|][|withAge|..] == line[|withAge|..|withLabel|];
    assert line[..|withAge|][|head|..] == line[|head|..|withAge|];
    assert line[..|head|][|name|..] == line[|name|..|head|];
    assert line[..|head|][..|name|] == line[..|name|];
    assert |line| - 1 - |breed| - 9 == |withAge| && |head| == |name| + 14;
    assert line[|name| + 14..|withAge|] == digits;
  }

  /** The animal line of the classes panel. */
  lemma AnimalExampleLine()
    ensures AnimalLine(ExampleAnimal) == "Generic Animal makes a sound (Age: 5)"
  {
    AnimalLineOf("Generic Animal", 5);
    assert NatToString(5) == "5";
    AnimalExampleText();
  }

  lemma AnimalExampleText()
    ensures "Generic Animal" + " makes a sound (Age: " + "5" + ")" == "Generic Animal makes a sound (Age: 5)"
  {
    assert "Generic Animal" + " makes a sound (Age: " == "Generic Animal makes a sound (Age: ";
  }

  /** The dog line of the classes panel. */
  lemma DogExampleLine()
    ensures DogLine(ExampleDog) == "Buddy barks! (Age: 3, Breed: Golden Retriever)"
  {
    DogLineOf("Buddy", 3, "Golden Retriever");
    assert NatToString(3) == "3";
    DogExampleText();
  }

  lemma DogExampleText()
    ensures "Buddy" + " barks! (Age: " + "3" + ", Breed: " + "Golden Retriever" + ")"
         == "Buddy barks! (Age: 3, Breed: Golden Retriever)"
  {
    DogExampleHead();
    DogExampleTail();
    AppendThree("Buddy" + " barks! (Age: " + "3", ", Breed: ", "Golden Retriever", ")");
    DogExampleJoin();
  }

  lemma DogExampleHead()
    ensures "Buddy" + " barks! (Age: " + "3" == "Buddy barks! (Age: 3"
  {
  }

  lemma DogExampleTail()
    ensures ", Breed: " + "Golden Retriever" + ")" == ", Breed: Golden Retriever)"
  {
  }

  lemma DogExampleJoin()
    ensures "Buddy barks! (Age: 3" + ", Breed: Golden Retriever)" == "Buddy barks! (Age: 3, Breed: Golden Retriever)"
  {
  }

  /** Appending three strings one by one appends their concatenation. */
  lemma AppendThree(s: string, a: string, b: string, c: string)
    ensures s + a + b + c == s + (a + b + c)
  {
  }

  /** The tab table's text result for the inheritance example: the same two
      lines, joined by a line break. */
  const ClassExampleResult: ExampleResult := ExampleResult(
    "Examples:",
    "Generic Animal makes a sound (Age: 5)" + "\n" + "Buddy barks! (Age: 3, Breed: Golden Retriever)",
    Text)

  /** A text result of two lines without line breaks renders as those two
      lines. */
  lemma TwoLineText(title: string, first: string, second: string)
    requires '\n' !in first && '\n' !in second
    ensures ResultLayout(ExampleResult(title, first + "\n" + second, Text)) == TextLines([first, second])
  {
    var lines := [first, second];
    assert lines[1..] == [second];
    assert Join(lines, "\n") == first + "\n" + second;
    TextResultRoundTrip(title, lines);
  }

  /** Rendered as a text result, the table's content gives back exactly the
      two lines the classes panel computes from its example objects. */
  lemma ClassExampleMatchesTable()
    ensures ResultLayout(ClassExampleResult) == TextLines([AnimalLine(ExampleAnimal), DogLine(ExampleDog)])
  {
    AnimalExampleLine();
    DogExampleLine();
    assert '\n' !in "Generic Animal" && '\n' !in "Golden Retriever" && '\n' !in "Buddy";
    LinesHaveNoBreak("Generic Animal", 5, "Golden Retriever");
    LinesHaveNoBreak("Buddy", 3, "Golden Retriever");
    TwoLineText(ClassExampleResult.title, AnimalLine(ExampleAnimal), DogLine(ExampleDog));
  }

  /** The section's state: the active tab. */
  class TsBasicsSection {
    var activeTab: TabId

    /** Mounting: the primitive types tab is active. */
    constructor ()
      ensures activeTab == InitialTab
    {
      activeTab := InitialTab;
    }

    /** A click on a tab's button: that tab becomes the active one. */
    method SelectTab(id: TabId)
      modifies this
      ensures activeTab == id
    {
      activeTab := id;
    }

    /** The panels rendered now: the active tab's alone. */
    function Panels(): (shown: seq<TabId>)
      reads this
      ensures shown == [activeTab]
    {
      ShownPanels(activeTab)
    }

    /** The button row's class attributes now. */
    function ButtonRow(): (row: seq<string>)
      reads this
      ensures |row| == |Tabs|
      ensures forall i :: 0 <= i < |row| ==> (HasClass(row[i], "active") <==> Tabs[i].id == activeTab)
    {
      ButtonClasses(activeTab)
    }
  }
}
