/**
 * The editing session: the open tabs, in tab-bar order, and the id of the
 * active one. Every operation replaces the list and the active id as a whole.
 */
module Tabs {
  import opened Wrappers
  import opened Seqs
  import opened Types
  import opened Filename

  /** A tab id: `tab-<key>-<Date.now()>`, the key being a path or a default file name. */
  function GenerateTabId(key: string, nowMs: int): string {
    "tab-" + key + "-" + DecimalString(nowMs)
  }

  /** Two ids made from the same key differ exactly when their clock readings differ. */
  lemma TabIdsDistinctInTime(key: string, ms1: int, ms2: int)
    ensures GenerateTabId(key, ms1) == GenerateTabId(key, ms2) <==> ms1 == ms2
  {
    var prefix := "tab-" + key + "-";
    assert GenerateTabId(key, ms1) == prefix + DecimalString(ms1);
    assert GenerateTabId(key, ms2) == prefix + DecimalString(ms2);
    if GenerateTabId(key, ms1) == GenerateTabId(key, ms2) {
      assert DecimalString(ms1) == (prefix + DecimalString(ms1))[|prefix|..];
      assert DecimalString(ms2) == (prefix + DecimalString(ms2))[|prefix|..];
    }
    DecimalStringInjective(ms1, ms2);
  }

  /** A tab bound to a file at `path`. */
  predicate BoundTo(tab: TabInfo, path: string) {
    tab.file.Some? && tab.file.value.path == path
  }

  /** The index of the first tab bound to `path`. */
  function FindTabByPath(tabs: seq<TabInfo>, path: string): (r: Option<nat>)
    ensures r.Some? ==> r.value < |tabs| && BoundTo(tabs[r.value], path)
    ensures r.Some? ==> forall j :: 0 <= j < r.value ==> !BoundTo(tabs[j], path)
    ensures r.None? ==> forall j :: 0 <= j < |tabs| ==> !BoundTo(tabs[j], path)
  {
    if tabs == [] then None
    else if BoundTo(tabs[0], path) then Some(0)
    else match FindTabByPath(tabs[1..], path)
      case None => None
      case Some(k) => Some(k + 1)
  }

  /** The index of the first tab with id `tabId`. */
  function FindTabIndex(tabs: seq<TabInfo>, tabId: string): (r: Option<nat>)
    ensures r.Some? ==> r.value < |tabs| && tabs[r.value].id == tabId
    ensures r.Some? ==> forall j :: 0 <= j < r.value ==> tabs[j].id != tabId
    ensures r.None? ==> forall j :: 0 <= j < |tabs| ==> tabs[j].id != tabId
  {
    if tabs == [] then None
    else if tabs[0].id == tabId then Some(0)
    else match FindTabIndex(tabs[1..], tabId)
      case None => None
      case Some(k) => Some(k + 1)
  }

  /** The derived `activeTab`: the first tab whose id is the active id, or null. */
  function ActiveTabOf(tabs: seq<TabInfo>, activeTabId: Option<string>): (r: Option<TabInfo>)
    ensures r.Some? <==> activeTabId.Some? && exists j :: 0 <= j < |tabs| && tabs[j].id == activeTabId.value
    ensures r.Some? ==> r.value in tabs && r.value.id == activeTabId.value
  {
    if activeTabId.None? then None
    else match FindTabIndex(tabs, activeTabId.value)
      case None => None
      case Some(i) => Some(tabs[i])
  }

  predicate HasTab(tabs: seq<TabInfo>, tabId: string) {
    exists j :: 0 <= j < |tabs| && tabs[j].id == tabId
  }

  /** The session invariant: the active id is null or names a tab in the list. */
  predicate ActiveValid(tabs: seq<TabInfo>, activeTabId: Option<string>) {
    activeTabId.None? || HasTab(tabs, activeTabId.value)
  }

  predicate IdsDistinct(tabs: seq<TabInfo>) {
    forall i, j :: 0 <= i < j < |tabs| ==> tabs[i].id != tabs[j].id
  }

  /** The list `closeTab` leaves: every tab with that id filtered out. */
  function WithoutTab(tabs: seq<TabInfo>, tabId: string): seq<TabInfo> {
    Filter(tabs, (t: TabInfo) => t.id != tabId)
  }

  /** Whether `closeTabsByStorageType` keeps a tab: unsaved, or bound to another storage. */
  predicate KeepsStorage(t: TabInfo, storageType: StorageType) {
    t.file.None? || t.file.value.storageType != storageType
  }

  function KeptByStorage(tabs: seq<TabInfo>, storageType: StorageType): seq<TabInfo> {
    Filter(tabs, (t: TabInfo) => KeepsStorage(t, storageType))
  }

  /** `tabs.map(tab => tab.id === tabId ? change(tab) : tab)`. */
  function UpdateWhere(tabs: seq<TabInfo>, tabId: string, change: TabInfo -> TabInfo): seq<TabInfo> {
    seq(|tabs|, i requires 0 <= i < |tabs| => if tabs[i].id == tabId then change(tabs[i]) else tabs[i])
  }

  function Min(a: int, b: int): int {
    if a <= b then a else b
  }

  /** Re-opening a path finds the tab the first opening appended. */
  lemma OpenedTabIsFound(tabs: seq<TabInfo>, tab: TabInfo, path: string)
    requires FindTabByPath(tabs, path).None?
    requires BoundTo(tab, path)
    ensures FindTabByPath(tabs + [tab], path) == Some(|tabs|)
  {
    assert (tabs + [tab])[|tabs|] == tab;
    assert forall j :: 0 <= j < |tabs| ==> (tabs + [tab])[j] == tabs[j];
  }

  /** Appending a tab whose id is new keeps the ids distinct, and the new id names a tab. */
  lemma AppendFreshId(tabs: seq<TabInfo>, tab: TabInfo)
    ensures HasTab(tabs + [tab], tab.id)
    ensures IdsDistinct(tabs) && !HasTab(tabs, tab.id) ==> IdsDistinct(tabs + [tab])
  {
    var t := tabs + [tab];
    assert t[|tabs|] == tab;
    if IdsDistinct(tabs) && !HasTab(tabs, tab.id) {
      forall i, j | 0 <= i < j < |t| ensures t[i].id != t[j].id {
        assert t[i] == tabs[i];
        if j < |tabs| {
          assert t[j] == tabs[j];
        }
      }
    }
  }

  /** `closeTab` removes the tabs with that id, and only those. */
  lemma CloseRemovesOnlyThatId(tabs: seq<TabInfo>, tabId: string, t: TabInfo)
    ensures t in WithoutTab(tabs, tabId) <==> t in tabs && t.id != tabId
  {
    FilterMembership(tabs, (u: TabInfo) => u.id != tabId, t);
  }

  /**
   * With distinct ids, closing the tab at index `i` is removing that index; the
   * tab that then sits at `min(i, len - 1)` is the closed tab's right neighbour,
   * or its left one when it was the last.
   */
  lemma CloseActivatesNeighbour(tabs: seq<TabInfo>, i: nat)
    requires IdsDistinct(tabs)
    requires i < |tabs|
    ensures WithoutTab(tabs, tabs[i].id) == tabs[..i] + tabs[i + 1..]
    ensures var rest := WithoutTab(tabs, tabs[i].id);
      |tabs| > 1 ==> rest[Min(i, |rest| - 1)] == if i + 1 < |tabs| then tabs[i + 1] else tabs[i - 1]
  {
    FilterDropsOne(tabs, (t: TabInfo) => t.id != tabs[i].id, i);
  }

  /** Unsaved tabs survive `closeTabsByStorageType`, as do tabs of other storages. */
  lemma KeptByStorageMembers(tabs: seq<TabInfo>, storageType: StorageType, t: TabInfo)
    ensures t in KeptByStorage(tabs, storageType) <==> t in tabs && KeepsStorage(t, storageType)
    ensures t in tabs && t.file.None? ==> t in KeptByStorage(tabs, storageType)
  {
    FilterMembership(tabs, (u: TabInfo) => KeepsStorage(u, storageType), t);
  }

  /** When `closeTabsByStorageType` keeps as many tabs as there were, it matched none. */
  lemma KeptAllMeansNoneMatched(tabs: seq<TabInfo>, storageType: StorageType)
    requires |KeptByStorage(tabs, storageType)| == |tabs|
    ensures KeptByStorage(tabs, storageType) == tabs
    ensures forall i :: 0 <= i < |tabs| ==> KeepsStorage(tabs[i], storageType)
  {
    FilterSameLength(tabs, (t: TabInfo) => KeepsStorage(t, storageType));
  }

  /** The session store. */
  class TabSession {
    var tabs: seq<TabInfo>
    var activeTabId: Option<string>

    predicate Valid()
      reads this
    {
      ActiveValid(tabs, activeTabId)
    }

    /** The derived store `activeTab`. */
    function ActiveTab(): (r: Option<TabInfo>)
      reads this
      requires Valid()
      ensures r.Some? <==> activeTabId.Some?
      ensures r.Some? ==> r.value in tabs && r.value.id == activeTabId.value
    {
      ActiveTabOf(tabs, activeTabId)
    }

    constructor ()
      ensures Valid() && tabs == [] && activeTabId == None
    {
      tabs := [];
      activeTabId := None;
    }

    method OpenTab(file: FileNode, content: string, nowMs: int)
      requires Valid()
      modifies this
      ensures Valid()
      ensures FindTabByPath(old(tabs), file.path).Some? ==>
        var i := FindTabByPath(old(tabs), file.path).value;
        tabs == old(tabs) && activeTabId == Some(old(tabs)[i].id)
      ensures FindTabByPath(old(tabs), file.path).None? ==>
        var id := GenerateTabId(file.path, nowMs);
        && tabs == old(tabs) + [TabInfo(id, Some(file), content, false, None, None, None)]
        && activeTabId == Some(id)
      ensures old(IdsDistinct(tabs)) && !HasTab(old(tabs), GenerateTabId(file.path, nowMs)) ==> IdsDistinct(tabs)
    {
      match FindTabByPath(tabs, file.path)
      case Some(i) =>
        activeTabId := Some(tabs[i].id);
      case None =>
        var newTab := TabInfo(GenerateTabId(file.path, nowMs), Some(file), content, false, None, None, None);
        AppendActive(newTab);
    }

    method CloseTab(tabId: string)
      requires Valid()
      modifies this
      ensures Valid()
      ensures FindTabIndex(old(tabs), tabId).None? ==> tabs == old(tabs) && activeTabId == old(activeTabId)
      ensures FindTabIndex(old(tabs), tabId).Some? ==>
        var index := FindTabIndex(old(tabs), tabId).value;
        && tabs == WithoutTab(old(tabs), tabId)
        && activeTabId == if old(activeTabId) != Some(tabId) then old(activeTabId)
                          else if tabs == [] then None
                          else Some(tabs[Min(index, |tabs| - 1)].id)
      ensures old(IdsDistinct(tabs)) ==> IdsDistinct(tabs)
    {
      var found := FindTabIndex(tabs, tabId);
      if found.None? {
        return;
      }
      var index := found.value;
      var newTabs := WithoutTab(tabs, tabId);
      if activeTabId == Some(tabId) {
        if |newTabs| > 0 {
          var newIndex := Min(index, |newTabs| - 1);
          activeTabId := Some(newTabs[newIndex].id);
          assert newTabs[newIndex] in newTabs;
        } else {
          activeTabId := None;
        }
      } else if activeTabId.Some? {
        var j :| 0 <= j < |tabs| && tabs[j].id == activeTabId.value;
        CloseRemovesOnlyThatId(tabs, tabId, tabs[j]);
        ghost var k :| 0 <= k < |newTabs| && newTabs[k] == tabs[j];
      }
      if IdsDistinct(tabs) {
        WithoutTabKeepsIdsDistinct(tabs, tabId);
      }
      tabs := newTabs;
    }

    method CreateNewTab(now: DateParts, nowMs: int) returns (id: string)
      requires Valid()
      modifies this
      ensures Valid()
      ensures var name := GenerateDefaultFileName(now);
        && id == GenerateTabId(name, nowMs)
        && tabs == old(tabs) + [TabInfo(id, None, "", false, Some(true), Some(name), None)]
        && activeTabId == Some(id)
      ensures old(IdsDistinct(tabs)) && !HasTab(old(tabs), id) ==> IdsDistinct(tabs)
    {
      var defaultFileName := GenerateDefaultFileName(now);
      var newTab := TabInfo(GenerateTabId(defaultFileName, nowMs), None, "", false, Some(true), Some(defaultFileName), None);
      AppendActive(newTab);
      id := newTab.id;
    }

    /** The step `openTab` and `createNewTab` share: append a tab and make it active. */
    method AppendActive(tab: TabInfo)
      requires Valid()
      modifies this
      ensures Valid()
      ensures tabs == old(tabs) + [tab] && activeTabId == Some(tab.id)
      ensures old(IdsDistinct(tabs)) && !HasTab(old(tabs), tab.id) ==> IdsDistinct(tabs)
    {
      AppendFreshId(tabs, tab);
      tabs := tabs + [tab];
      activeTabId := Some(tab.id);
    }

    method UpdateTabContent(tabId: string, content: string)
      requires Valid()
      modifies this
      ensures Valid()
      ensures old(IdsDistinct(tabs)) ==> IdsDistinct(tabs)
      ensures |tabs| == |old(tabs)| && activeTabId == old(activeTabId)
      ensures forall i :: 0 <= i < |tabs| ==>
        tabs[i] == if old(tabs)[i].id == tabId then old(tabs)[i].(content := content, isDirty := true) else old(tabs)[i]
    {
      UpdateKeepsIds(tabs, tabId, (t: TabInfo) => t.(content := content, isDirty := true), activeTabId);
      tabs := UpdateWhere(tabs, tabId, (t: TabInfo) => t.(content := content, isDirty := true));
    }

    method UpdateTabFile(tabId: string, file: FileNode)
      requires Valid()
      modifies this
      ensures Valid()
      ensures old(IdsDistinct(tabs)) ==> IdsDistinct(tabs)
      ensures |tabs| == |old(tabs)| && activeTabId == old(activeTabId)
      ensures forall i :: 0 <= i < |tabs| ==>
        tabs[i] == if old(tabs)[i].id == tabId
                   then old(tabs)[i].(file := Some(file), isDirty := false, isUnsaved := Some(false))
                   else old(tabs)[i]
    {
      UpdateKeepsIds(tabs, tabId, (t: TabInfo) => t.(file := Some(file), isDirty := false, isUnsaved := Some(false)), activeTabId);
      tabs := UpdateWhere(tabs, tabId, (t: TabInfo) => t.(file := Some(file), isDirty := false, isUnsaved := Some(false)));
    }

    method MarkTabSaved(tabId: string)
      requires Valid()
      modifies this
      ensures Valid()
      ensures old(IdsDistinct(tabs)) ==> IdsDistinct(tabs)
      ensures |tabs| == |old(tabs)| && activeTabId == old(activeTabId)
      ensures forall i :: 0 <= i < |tabs| ==>
        tabs[i] == if old(tabs)[i].id == tabId then old(tabs)[i].(isDirty := false) else old(tabs)[i]
    {
      UpdateKeepsIds(tabs, tabId, (t: TabInfo) => t.(isDirty := false), activeTabId);
      tabs := UpdateWhere(tabs, tabId, (t: TabInfo) => t.(isDirty := false));
    }

    method CloseTabsByStorageType(storageType: StorageType)
      requires Valid()
      modifies this
      ensures Valid()
      ensures old(IdsDistinct(tabs)) ==> IdsDistinct(tabs)
      ensures var kept := KeptByStorage(old(tabs), storageType);
        |kept| == |old(tabs)| ==> tabs == old(tabs) && activeTabId == old(activeTabId)
      ensures var kept := KeptByStorage(old(tabs), storageType);
        |kept| != |old(tabs)| ==>
          && tabs == kept
          && activeTabId == if !ActiveRemoved(old(tabs), old(activeTabId), storageType) then old(activeTabId)
                            else if kept == [] then None
                            else Some(kept[0].id)
    {
      var tabsToKeep := KeptByStorage(tabs, storageType);
      if |tabsToKeep| == |tabs| {
        return;
      }
      if ActiveRemoved(tabs, activeTabId, storageType) {
        if |tabsToKeep| > 0 {
          activeTabId := Some(tabsToKeep[0].id);
        } else {
          activeTabId := None;
        }
      } else if activeTabId.Some? {
        var j :| 0 <= j < |tabs| && tabs[j].id == activeTabId.value;
        KeptByStorageMembers(tabs, storageType, tabs[j]);
        ghost var k :| 0 <= k < |tabsToKeep| && tabsToKeep[k] == tabs[j];
      }
      if IdsDistinct(tabs) {
        KeptByStorageKeepsIdsDistinct(tabs, storageType);
      }
      tabs := tabsToKeep;
    }

    method CloseAllTabs()
      modifies this
      ensures Valid() && tabs == [] && activeTabId == None
    {
      tabs := [];
      activeTabId := None;
    }
  }

  /** `currentTabs.some(...)` in `closeTabsByStorageType`: the active tab is bound to that storage. */
  predicate ActiveRemoved(tabs: seq<TabInfo>, activeTabId: Option<string>, storageType: StorageType) {
    exists j :: 0 <= j < |tabs| && Some(tabs[j].id) == activeTabId && !KeepsStorage(tabs[j], storageType)
  }

  /** The per-tab updates keep every id in place, so the active id stays valid. */
  lemma UpdateKeepsIds(tabs: seq<TabInfo>, tabId: string, change: TabInfo -> TabInfo, activeTabId: Option<string>)
    requires forall t :: change(t).id == t.id
    ensures |UpdateWhere(tabs, tabId, change)| == |tabs|
    ensures forall i :: 0 <= i < |tabs| ==> UpdateWhere(tabs, tabId, change)[i].id == tabs[i].id
    ensures ActiveValid(tabs, activeTabId) ==> ActiveValid(UpdateWhere(tabs, tabId, change), activeTabId)
    ensures IdsDistinct(tabs) ==> IdsDistinct(UpdateWhere(tabs, tabId, change))
  {
    var r := UpdateWhere(tabs, tabId, change);
    if activeTabId.Some? && HasTab(tabs, activeTabId.value) {
      var j :| 0 <= j < |tabs| && tabs[j].id == activeTabId.value;
      assert r[j].id == tabs[j].id;
    }
  }

  /** `closeTab` keeps distinct ids distinct: its survivors are a subsequence. */
  lemma WithoutTabKeepsIdsDistinct(tabs: seq<TabInfo>, tabId: string)
    requires IdsDistinct(tabs)
    ensures IdsDistinct(WithoutTab(tabs, tabId))
  {
    var id := (t: TabInfo) => t.id;
    assert DistinctBy(tabs, id);
    FilterKeepsDistinct(tabs, (t: TabInfo) => t.id != tabId, id);
  }

  /** `closeTabsByStorageType` keeps distinct ids distinct. */
  lemma KeptByStorageKeepsIdsDistinct(tabs: seq<TabInfo>, storageType: StorageType)
    requires IdsDistinct(tabs)
    ensures IdsDistinct(KeptByStorage(tabs, storageType))
  {
    var id := (t: TabInfo) => t.id;
    assert DistinctBy(tabs, id);
    FilterKeepsDistinct(tabs, (t: TabInfo) => KeepsStorage(t, storageType), id);
  }
}
