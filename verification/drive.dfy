/**
 The abstract Drive the upload talks to: a finite list of items, in the
 order a listing returns them, and the meaning of the two `files.list`
 queries and the `files.get` lookup the routine issues.

 The query strings of the source are not modelled as text; a `Query` is
 what they mean, and `Matches` is the filter Drive applies.
 */
module Drive {
  import opened Api

  /** One file or folder as Drive reports it. */
  datatype Item = Item(id: string, name: string, parents: seq<string>, isFolder: bool, trashed: bool)

  /** `'<parent>' in parents and name = '<name>' [and mimeType = folder] and
      trashed = false`; the folder-type filter is present only when
      `foldersOnly` holds. */
  datatype Query = Query(parent: string, name: string, foldersOnly: bool)

  predicate Matches(q: Query, it: Item) {
    && q.parent in it.parents
    && it.name == q.name
    && (q.foldersOnly ==> it.isFolder)
    && !it.trashed
  }

  /** `i` is the position of the first item of `items` that `q` selects. */
  predicate IsFirstMatch(items: seq<Item>, q: Query, i: int) {
    && 0 <= i < |items|
    && Matches(q, items[i])
    && forall k :: 0 <= k < i ==> !Matches(q, items[k])
  }

  /** The `files` array of a `files.list` response: the selected items, in
      listing order. */
  function Search(items: seq<Item>, q: Query): (r: seq<Item>)
    ensures forall it :: it in r <==> it in items && Matches(q, it)
    ensures r != [] ==> exists i :: IsFirstMatch(items, q, i) && r[0] == items[i]
    ensures r == [] ==> forall i :: 0 <= i < |items| ==> !Matches(q, items[i])
  {
    if items == [] then []
    else
      var rest := Search(items[1..], q);
      if Matches(q, items[0]) then
        assert IsFirstMatch(items, q, 0);
        [items[0]] + rest
      else
        assert rest != [] ==> exists i :: IsFirstMatch(items, q, i) && rest[0] == items[i] by {
          if rest != [] {
            var i :| IsFirstMatch(items[1..], q, i) && rest[0] == items[1..][i];
            assert IsFirstMatch(items, q, i + 1);
          }
        }
        rest
  }

  /** Adding one item at the end of the listing only ever appends it to a
      search result, and only when the query selects it. */
  lemma {:induction false} SearchAppend(items: seq<Item>, x: Item, q: Query)
    ensures Search(items + [x], q) == Search(items, q) + (if Matches(q, x) then [x] else [])
  {
    if items == [] {
      assert items + [x] == [x];
      assert [x][1..] == [];
    } else {
      assert (items + [x])[1..] == items[1..] + [x];
      SearchAppend(items[1..], x, q);
    }
  }

  /** The item `files.get` returns for `id`. */
  function Lookup(items: seq<Item>, id: string): (r: Option<Item>)
    ensures r.None? <==> forall i :: 0 <= i < |items| ==> items[i].id != id
    ensures r.Some? ==> r.value in items && r.value.id == id
  {
    if items == [] then None
    else if items[0].id == id then Some(items[0])
    else Lookup(items[1..], id)
  }
}
