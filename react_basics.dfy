/** The React basics section: a row of tab buttons over a table of tabs, the
    active tab's id as state, and the active tab's content below. */
module ReactBasics {
  import opened Options
  import opened Strings
  import opened TabContent

  /** The tab shown when the section mounts. */
  const InitialTab: string := "rendering"

  /** `tabs.find(tab => tab.id === id)`: the first tab, in table order, whose
      id is `id`, or nothing when no tab has it. */
  function FindTab(tabs: seq<TabData>, id: string): (r: Option<TabData>)
    ensures r.None? <==> forall i :: 0 <= i < |tabs| ==> tabs[i].id != id
    ensures r.Some? ==>
      exists i :: && 0 <= i < |tabs| && tabs[i] == r.value && tabs[i].id == id
                  && forall j :: 0 <= j < i ==> tabs[j].id != id
  {
    if tabs == [] then None
    else if tabs[0].id == id then Some(tabs[0])
    else
      var r := FindTab(tabs[1..], id);
      assert forall i :: 1 <= i < |tabs| ==> tabs[i] == tabs[1..][i - 1];
      r
  }

  /** No two tabs of the table share an id. */
  predicate DistinctIds(tabs: seq<TabData>)
  {
    forall i, j :: 0 <= i < j < |tabs| ==> tabs[i].id != tabs[j].id
  }

  /** With distinct ids, the tab found is the one tab with that id. */
  lemma FindTabUnique(tabs: seq<TabData>, k: nat)
    requires DistinctIds(tabs) && k < |tabs|
    ensures FindTab(tabs, tabs[k].id) == Some(tabs[k])
  {
    var r := FindTab(tabs, tabs[k].id);
    var i :| 0 <= i < |tabs| && tabs[i] == r.value && tabs[i].id == tabs[k].id
      && forall j :: 0 <= j < i ==> tabs[j].id != tabs[k].id;
    assert i == k;
  }

  /** One tab button: its text and its class attribute. */
  datatype Button = Button(text: string, className: string)

  /** The class attribute of a tab's button: "tab-button", and "active"
      exactly when the tab's id is the active one. */
  function ButtonClass(activeTab: string, tab: TabData): (c: string)
    ensures HasClass(c, "tab-button")
    ensures HasClass(c, "active") <==> activeTab == tab.id
  {
    var state := if activeTab == tab.id then "active" else "";
    ClassPairHas("tab-button", state, "tab-button");
    ClassPairHas("tab-button", state, "active");
    assert "tab-button " + state == "tab-button" + " " + state;
    "tab-button " + state
  }

  /** The button row: one button per tab, in table order. */
  function Buttons(tabs: seq<TabData>, activeTab: string): (row: seq<Button>)
    ensures |row| == |tabs|
    ensures forall i :: 0 <= i < |row| ==> row[i].text == tabs[i].labelText
    ensures forall i :: 0 <= i < |row| ==> (HasClass(row[i].className, "active") <==> tabs[i].id == activeTab)
  {
    seq(|tabs|, i requires 0 <= i < |tabs| => Button(tabs[i].labelText, ButtonClass(activeTab, tabs[i])))
  }

  /** With distinct ids, an active button makes every other button inactive,
      and some button is active exactly when the active id is in the table. */
  lemma OneActiveButton(tabs: seq<TabData>, activeTab: string)
    requires DistinctIds(tabs)
    ensures var row := Buttons(tabs, activeTab);
      && (forall i, j | 0 <= i < |row| && 0 <= j < |row| && i != j ::
            HasClass(row[i].className, "active") ==> !HasClass(row[j].className, "active"))
      && ((exists i :: 0 <= i < |row| && HasClass(row[i].className, "active"))
            <==> exists i :: 0 <= i < |tabs| && tabs[i].id == activeTab)
  {
    var row := Buttons(tabs, activeTab);
    forall i, j | 0 <= i < |row| && 0 <= j < |row| && i != j && HasClass(row[i].className, "active")
      ensures !HasClass(row[j].className, "active")
    {
      if i < j {
        assert tabs[i].id != tabs[j].id;
      } else {
        assert tabs[j].id != tabs[i].id;
      }
    }
  }

  /** The section's state: the tab table and the active tab's id. */
  class ReactBasicsSection {
    const tabs: seq<TabData>
    var activeTab: string

    /** Mounting: the "rendering" tab is active. */
    constructor (table: seq<TabData>)
      ensures tabs == table && activeTab == InitialTab
    {
      tabs := table;
      activeTab := InitialTab;
    }

    /** A click on a tab's button: that tab's id becomes the active one, and
      nothing else changes. */
    method SelectTab(id: string)
      modifies this
      ensures activeTab == id
    {
      activeTab := id;
    }

    /** The content region: the active tab rendered, or nothing when no tab
      of the table has the active id. */
    function Content(): (c: Option<TabView>)
      reads this
      ensures c.None? <==> forall i :: 0 <= i < |tabs| ==> tabs[i].id != activeTab
      ensures c.Some? ==>
        exists i :: && 0 <= i < |tabs| && tabs[i].id == activeTab
                    && c.value == RenderTab(tabs[i])
                    && forall j :: 0 <= j < i ==> tabs[j].id != activeTab
    {
      match FindTab(tabs, activeTab)
      case None => None
      case Some(tab) => Some(RenderTab(tab))
    }

    /** The button row for the current state. */
    function ButtonRow(): (row: seq<Button>)
      reads this
      ensures |row| == |tabs|
      ensures forall i :: 0 <= i < |row| ==> (HasClass(row[i].className, "active") <==> tabs[i].id == activeTab)
    {
      Buttons(tabs, activeTab)
    }
  }
}
