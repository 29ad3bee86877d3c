/** The state both list hooks keep: the list of entries, the `loading`
    flag and the copy of the list in device storage, with the four
    operations `useDocuments` and `useWebsites` share (load from storage,
    add, delete by id, update by id). Entries are records; an entry's id is
    its string field `id`. Each change sets the in-memory list first and
    then writes it to storage; whether that write succeeds is an input. */
module StoredList {
  import opened Outcomes
  import opened Records
  import opened Lists

  /** `entry.id === id`. */
  predicate HasId(entry: Fields, id: string)
  {
    HasStr(entry, "id", id)
  }

  /** Device storage as the hooks see it: each key holds a stored list. */
  type Device = map<string, seq<Fields>>

  /** A hook's in-memory state: its list and its `loading` flag. */
  datatype ListState = ListState(items: seq<Fields>, loading: bool)

  /** A hook's state after a change, with device storage after the write. */
  datatype After = After(list: ListState, device: Device)

  /** `useState([])` and `useState(true)`. */
  function Mounted(): (r: ListState)
    ensures r.items == [] && r.loading
  {
    ListState([], true)
  }

  /** The list in memory is the list stored under `key`. */
  predicate InSync(s: ListState, device: Device, key: string)
  {
    key in device && device[key] == s.items
  }

  /** Loading the list stored under `key`: the list is replaced only when
      the read succeeds and finds a stored list (an empty stored list counts:
      arrays are truthy), and `loading` is cleared on every outcome. */
  function Load(s: ListState, device: Device, key: string, readOk: bool): (r: ListState)
    ensures !r.loading
    ensures readOk && key in device ==> r.items == device[key]
    ensures !readOk || key !in device ==> r.items == s.items
    ensures InSync(r, device, key) <==> InSync(s, device, key) || (readOk && key in device)
  {
    if readOk && key in device then ListState(device[key], false) else s.(loading := false)
  }

  /** Sets the list in memory and then writes it under `key`. */
  function Save(s: ListState, device: Device, key: string, updated: seq<Fields>, writeOk: bool): (r: After)
    ensures r.list.items == updated && r.list.loading == s.loading
    ensures r.device == if writeOk then device[key := updated] else device
  {
    After(s.(items := updated), if writeOk then device[key := updated] else device)
  }

  /** `[...items, entry]`. */
  function Append(items: seq<Fields>, entry: Fields): (r: seq<Fields>)
    ensures |r| == |items| + 1
    ensures r[..|items|] == items && r[|items|] == entry
  {
    items + [entry]
  }

  /** `items.filter(e => e.id !== id)`. */
  function Remove(items: seq<Fields>, id: string): (r: seq<Fields>)
    ensures forall i :: 0 <= i < |r| ==> !HasId(r[i], id)
    ensures forall e :: multiset(r)[e] == if HasId(e, id) then 0 else multiset(items)[e]
    ensures IsSubsequence(r, items)
    ensures (forall i :: 0 <= i < |items| ==> !HasId(items[i], id)) ==> r == items
  {
    var r := Filter(items, e => !HasId(e, id));
    assert (forall i :: 0 <= i < |items| ==> !HasId(items[i], id)) ==> r == items by {
      if forall i :: 0 <= i < |items| ==> !HasId(items[i], id) {
        FilterAllKept(items, e => !HasId(e, id));
      }
    }
    r
  }

  /** `items.map(e => e.id === id ? { ...e, ...updates } : e)`. */
  function Patch(items: seq<Fields>, id: string, updates: Fields): (r: seq<Fields>)
    ensures |r| == |items|
    ensures forall i :: 0 <= i < |items| && HasId(items[i], id) ==> r[i] == Merge(items[i], updates)
    ensures forall i :: 0 <= i < |items| && !HasId(items[i], id) ==> r[i] == items[i]
    decreases |items|
  {
    if |items| == 0 then []
    else
      var head := if HasId(items[0], id) then Merge(items[0], updates) else items[0];
      [head] + Patch(items[1..], id, updates)
  }

  /** The storage write of a change touches no other key, and leaves the
      list stored under `key` equal to the list in memory when it succeeds. */
  predicate Written(r: After, device: Device, key: string, writeOk: bool)
  {
    && r.device - {key} == device - {key}
    && (writeOk ==> InSync(r.list, r.device, key))
    && (!writeOk ==> r.device == device)
  }

  function Add(s: ListState, device: Device, key: string, entry: Fields, writeOk: bool): (r: After)
    ensures r.list.loading == s.loading
    ensures |r.list.items| == |s.items| + 1
    ensures r.list.items[..|s.items|] == s.items && r.list.items[|s.items|] == entry
    ensures Written(r, device, key, writeOk)
  {
    Save(s, device, key, Append(s.items, entry), writeOk)
  }

  function Delete(s: ListState, device: Device, key: string, id: string, writeOk: bool): (r: After)
    ensures r.list.loading == s.loading
    ensures forall i :: 0 <= i < |r.list.items| ==> !HasId(r.list.items[i], id)
    ensures forall e :: multiset(r.list.items)[e] == if HasId(e, id) then 0 else multiset(s.items)[e]
    ensures IsSubsequence(r.list.items, s.items)
    ensures (forall i :: 0 <= i < |s.items| ==> !HasId(s.items[i], id)) ==> r.list.items == s.items
    ensures Written(r, device, key, writeOk)
  {
    Save(s, device, key, Remove(s.items, id), writeOk)
  }

  function Update(s: ListState, device: Device, key: string, id: string, updates: Fields, writeOk: bool): (r: After)
    ensures r.list.loading == s.loading
    ensures |r.list.items| == |s.items|
    ensures forall i :: 0 <= i < |s.items| && HasId(s.items[i], id) ==>
              (forall f :: f in updates ==> f in r.list.items[i] && r.list.items[i][f] == updates[f])
              && (forall f :: f in s.items[i] && f !in updates ==>
                    f in r.list.items[i] && r.list.items[i][f] == s.items[i][f])
    ensures forall i :: 0 <= i < |s.items| && !HasId(s.items[i], id) ==> r.list.items[i] == s.items[i]
    ensures Written(r, device, key, writeOk)
  {
    Save(s, device, key, Patch(s.items, id, updates), writeOk)
  }

  /** A change whose write succeeded survives a reload: reading storage
      back gives the list that was in memory. */
  lemma ReloadKeepsSavedChange(s: ListState, device: Device, key: string, entry: Fields, id: string, updates: Fields)
    ensures var a := Add(s, device, key, entry, true);
            Load(a.list, a.device, key, true).items == a.list.items
    ensures var d := Delete(s, device, key, id, true);
            Load(d.list, d.device, key, true).items == d.list.items
    ensures var u := Update(s, device, key, id, updates, true);
            Load(u.list, u.device, key, true).items == u.list.items
  {
  }

  /** A change under one key does not alter what a load under another key
      reads. */
  lemma OtherKeyUnaffected(r: After, device: Device, key: string, writeOk: bool,
                           other: ListState, otherKey: string, readOk: bool)
    requires Written(r, device, key, writeOk) && otherKey != key
    ensures Load(other, r.device, otherKey, readOk) == Load(other, device, otherKey, readOk)
  {
    assert otherKey in r.device <==> otherKey in r.device - {key};
    assert otherKey in device <==> otherKey in device - {key};
    if otherKey in device {
      assert (r.device - {key})[otherKey] == r.device[otherKey];
      assert (device - {key})[otherKey] == device[otherKey];
    }
  }

  /** Deleting an entry just added under a fresh id gives back the list as
      it was before the add, and storage as it was when it was in sync. */
  lemma DeleteUndoesAdd(s: ListState, device: Device, key: string, entry: Fields, id: string, writeOk: bool)
    requires HasId(entry, id)
    requires forall i :: 0 <= i < |s.items| ==> !HasId(s.items[i], id)
    requires writeOk ==> InSync(s, device, key)
    ensures var a := Add(s, device, key, entry, writeOk);
            Delete(a.list, a.device, key, id, writeOk) == After(s, device)
  {
    var a := Add(s, device, key, entry, writeOk);
    assert a == Save(s, device, key, s.items + [entry], writeOk);
    RemoveUndoesAppend(s.items, entry, id);
    assert Delete(a.list, a.device, key, id, writeOk) == Save(a.list, a.device, key, s.items, writeOk);
    SaveBack(s, device, key, s.items + [entry], writeOk);
  }

  /** Saving a list and then saving back the list that was in memory, in
      sync when the writes succeed, restores both. */
  lemma SaveBack(s: ListState, device: Device, key: string, updated: seq<Fields>, writeOk: bool)
    requires writeOk ==> InSync(s, device, key)
    ensures var a := Save(s, device, key, updated, writeOk);
            Save(a.list, a.device, key, s.items, writeOk) == After(s, device)
  {
    if writeOk {
      assert device[key := updated][key := s.items] == device;
    }
  }

  /** Removing the id of an entry just appended to a list free of that id
      gives back the list. */
  lemma RemoveUndoesAppend(items: seq<Fields>, entry: Fields, id: string)
    requires HasId(entry, id)
    requires forall i :: 0 <= i < |items| ==> !HasId(items[i], id)
    ensures Remove(items + [entry], id) == items
  {
    FilterAppendDropped(items, entry, e => !HasId(e, id));
    FilterAllKept(items, e => !HasId(e, id));
  }

  lemma {:induction false} FilterAppendDropped<T(!new)>(s: seq<T>, x: T, keep: T -> bool)
    requires !keep(x)
    ensures Filter(s + [x], keep) == Filter(s, keep)
    decreases |s|
  {
    if |s| == 0 {
      assert s + [x] == [x];
      assert [x][1..] == [];
    } else {
      assert (s + [x])[1..] == s[1..] + [x];
      FilterAppendDropped(s[1..], x, keep);
    }
  }

  /** Deleting twice is deleting once. */
  lemma DeleteIdempotent(s: ListState, device: Device, key: string, id: string, writeOk: bool)
    ensures var d := Delete(s, device, key, id, writeOk);
            Delete(d.list, d.device, key, id, writeOk) == d
  {
  }
}

/** `useDocuments`: the document list, stored under `documents`. */
module DocumentsHook {
  import opened Records
  import opened StoredList

  const DocumentsKey := "documents"

  /** `loadDocuments`, also the hook's `refresh`. */
  function LoadDocuments(s: ListState, device: Device, readOk: bool): (r: ListState)
    ensures !r.loading
    ensures r.items == (if readOk && DocumentsKey in device then device[DocumentsKey] else s.items)
  {
    Load(s, device, DocumentsKey, readOk)
  }

  function AddDocument(s: ListState, device: Device, doc: Fields, writeOk: bool): (r: After)
    ensures r.list == s.(items := s.items + [doc])
    ensures r.device == if writeOk then device[DocumentsKey := s.items + [doc]] else device
  {
    Add(s, device, DocumentsKey, doc, writeOk)
  }

  function DeleteDocument(s: ListState, device: Device, id: string, writeOk: bool): (r: After)
    ensures r.list.loading == s.loading
    ensures forall i :: 0 <= i < |r.list.items| ==> !HasId(r.list.items[i], id)
    ensures forall d :: !HasId(d, id) ==> multiset(r.list.items)[d] == multiset(s.items)[d]
    ensures Lists.IsSubsequence(r.list.items, s.items)
    ensures r.device == if writeOk then device[DocumentsKey := r.list.items] else device
  {
    Delete(s, device, DocumentsKey, id, writeOk)
  }

  function UpdateDocument(s: ListState, device: Device, id: string, updates: Fields, writeOk: bool): (r: After)
    ensures r.list.loading == s.loading && |r.list.items| == |s.items|
    ensures forall i :: 0 <= i < |s.items| ==>
              r.list.items[i] == if HasId(s.items[i], id) then Merge(s.items[i], updates) else s.items[i]
    ensures r.device == if writeOk then device[DocumentsKey := r.list.items] else device
  {
    Update(s, device, DocumentsKey, id, updates, writeOk)
  }
}

/** `useWebsites`: the list of saved website logins, stored under `websites`. */
module WebsitesHook {
  import opened Records
  import opened StoredList

  const WebsitesKey := "websites"

  /** `loadWebsites`, also the hook's `refresh`. */
  function LoadWebsites(s: ListState, device: Device, readOk: bool): (r: ListState)
    ensures !r.loading
    ensures readOk && WebsitesKey in device ==> r.items == device[WebsitesKey]
    ensures !readOk || WebsitesKey !in device ==> r == s.(loading := false)
  {
    Load(s, device, WebsitesKey, readOk)
  }

  function AddWebsite(s: ListState, device: Device, site: Fields, writeOk: bool): (r: After)
    ensures r.list.loading == s.loading
    ensures |r.list.items| == |s.items| + 1
    ensures r.list.items[..|s.items|] == s.items && r.list.items[|s.items|] == site
    ensures Written(r, device, WebsitesKey, writeOk)
  {
    Add(s, device, WebsitesKey, site, writeOk)
  }

  function DeleteWebsite(s: ListState, device: Device, id: string, writeOk: bool): (r: After)
    ensures r.list.loading == s.loading
    ensures forall i :: 0 <= i < |r.list.items| ==> !HasId(r.list.items[i], id)
    ensures forall w :: multiset(r.list.items)[w] == if HasId(w, id) then 0 else multiset(s.items)[w]
    ensures Lists.IsSubsequence(r.list.items, s.items)
    ensures Written(r, device, WebsitesKey, writeOk)
  {
    Delete(s, device, WebsitesKey, id, writeOk)
  }

  function UpdateWebsite(s: ListState, device: Device, id: string, updates: Fields, writeOk: bool): (r: After)
    ensures r.list.loading == s.loading && |r.list.items| == |s.items|
    ensures forall i :: 0 <= i < |s.items| && !HasId(s.items[i], id) ==> r.list.items[i] == s.items[i]
    ensures forall i :: 0 <= i < |s.items| && HasId(s.items[i], id) ==> r.list.items[i] == Merge(s.items[i], updates)
    ensures Written(r, device, WebsitesKey, writeOk)
  {
    Update(s, device, WebsitesKey, id, updates, writeOk)
  }
}

/** The two hooks share device storage under different keys. */
module SharedStorage {
  import opened Records
  import opened StoredList
  import opened DocumentsHook
  import opened WebsitesHook

  /** A change to the documents never alters the website list a load reads,
      whether or not its write went through. */
  lemma DocumentChangesLeaveWebsites(docs: ListState, sites: ListState, device: Device,
                                     doc: Fields, id: string, updates: Fields, writeOk: bool, readOk: bool)
    ensures LoadWebsites(sites, AddDocument(docs, device, doc, writeOk).device, readOk)
              == LoadWebsites(sites, device, readOk)
    ensures LoadWebsites(sites, DeleteDocument(docs, device, id, writeOk).device, readOk)
              == LoadWebsites(sites, device, readOk)
    ensures LoadWebsites(sites, UpdateDocument(docs, device, id, updates, writeOk).device, readOk)
              == LoadWebsites(sites, device, readOk)
  {
    OtherKeyUnaffected(AddDocument(docs, device, doc, writeOk), device, DocumentsKey, writeOk,
                       sites, WebsitesKey, readOk);
    OtherKeyUnaffected(DeleteDocument(docs, device, id, writeOk), device, DocumentsKey, writeOk,
                       sites, WebsitesKey, readOk);
    OtherKeyUnaffected(UpdateDocument(docs, device, id, updates, writeOk), device, DocumentsKey, writeOk,
                       sites, WebsitesKey, readOk);
  }

  /** A change to the websites never alters the document list a load reads. */
  lemma WebsiteChangesLeaveDocuments(docs: ListState, sites: ListState, device: Device,
                                     site: Fields, id: string, updates: Fields, writeOk: bool, readOk: bool)
    ensures LoadDocuments(docs, AddWebsite(sites, device, site, writeOk).device, readOk)
              == LoadDocuments(docs, device, readOk)
    ensures LoadDocuments(docs, DeleteWebsite(sites, device, id, writeOk).device, readOk)
              == LoadDocuments(docs, device, readOk)
    ensures LoadDocuments(docs, UpdateWebsite(sites, device, id, updates, writeOk).device, readOk)
              == LoadDocuments(docs, device, readOk)
  {
    OtherKeyUnaffected(AddWebsite(sites, device, site, writeOk), device, WebsitesKey, writeOk,
                       docs, DocumentsKey, readOk);
    OtherKeyUnaffected(DeleteWebsite(sites, device, id, writeOk), device, WebsitesKey, writeOk,
                       docs, DocumentsKey, readOk);
    OtherKeyUnaffected(UpdateWebsite(sites, device, id, updates, writeOk), device, WebsitesKey, writeOk,
                       docs, DocumentsKey, readOk);
  }
}
