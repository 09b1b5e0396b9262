/** The inverted index of metadata values, with a text view and a typed view of the same entries. */
module MetadataIndex {
  import opened Options
  import opened MetadataValues
  import opened MetadataSpec

  datatype Entry = Entry(value: Value, doc: DocId)
  datatype Posting = Posting(value: Value, docs: seq<DocId>)

  /** The documents with a value of that text, in the order they were added. */
  function TextDocs(t: Texts, entries: seq<Entry>, s: string): seq<DocId>
  {
    if entries == [] then []
    else
      var n := |entries| - 1;
      TextDocs(t, entries[..n], s) + (if t.str(entries[n].value) == s then [entries[n].doc] else [])
  }

  /** The documents with a value of that membership key, in the order they were added. */
  function TypedDocs(t: Texts, entries: seq<Entry>, k: Key): seq<DocId>
  {
    if entries == [] then []
    else
      var n := |entries| - 1;
      TypedDocs(t, entries[..n], k) + (if t.KeyOf(entries[n].value) == k then [entries[n].doc] else [])
  }

  ghost predicate TextView(t: Texts, entries: seq<Entry>, text: map<string, seq<DocId>>)
  {
    forall s :: (s in text <==> TextDocs(t, entries, s) != []) && (s in text ==> text[s] == TextDocs(t, entries, s))
  }

  ghost predicate TypedView(t: Texts, entries: seq<Entry>, typed: map<Key, Posting>)
  {
    && (forall k :: k in typed <==> TypedDocs(t, entries, k) != [])
    && (forall k :: k in typed ==> typed[k].docs == TypedDocs(t, entries, k) && t.KeyOf(typed[k].value) == k)
  }

  class MetadataValueIndex {
    var text: map<string, seq<DocId>>
    var typed: map<Key, Posting>
    ghost var entries: seq<Entry>

    ghost predicate Valid(t: Texts)
      reads this
    {
      TextView(t, entries, text) && TypedView(t, entries, typed)
    }

    constructor ()
      ensures entries == [] && forall t :: Valid(t)
    {
      text, typed, entries := map[], map[], [];
    }

    /** Adds to both views; the typed view keeps the first value with a key. */
    method Add(t: Texts, value: Value, doc: DocId)
      requires Valid(t)
      modifies this
      ensures Valid(t) && entries == old(entries) + [Entry(value, doc)]
    {
      var s, k := t.str(value), t.KeyOf(value);
      text := text[s := (if s in text then text[s] else []) + [doc]];
      if k !in typed {
        typed := typed[k := Posting(value, [])];
      }
      typed := typed[k := Posting(typed[k].value, typed[k].docs + [doc])];
      entries := entries + [Entry(value, doc)];
      assert entries[..|entries| - 1] == old(entries);
    }
  }

  lemma {:induction false} TextDocsHas(t: Texts, entries: seq<Entry>, s: string, d: DocId)
    ensures d in TextDocs(t, entries, s) <==> exists e :: e in entries && e.doc == d && t.str(e.value) == s
    decreases |entries|
  {
    if entries != [] {
      var n := |entries| - 1;
      TextDocsHas(t, entries[..n], s, d);
      assert entries == entries[..n] + [entries[n]];
    }
  }

  lemma {:induction false} TypedDocsHas(t: Texts, entries: seq<Entry>, k: Key, d: DocId)
    ensures d in TypedDocs(t, entries, k) <==> exists e :: e in entries && e.doc == d && t.KeyOf(e.value) == k
    decreases |entries|
  {
    if entries != [] {
      var n := |entries| - 1;
      TypedDocsHas(t, entries[..n], k, d);
      assert entries == entries[..n] + [entries[n]];
    }
  }

  // ---------- aggregation ----------

  /** One value of one field of one document. */
  datatype Post = Post(key: string, value: Value, doc: DocId)

  function ItemPosts(key: string, items: seq<Value>, doc: DocId): seq<Post>
  {
    if items == [] then []
    else
      var n := |items| - 1;
      ItemPosts(key, items[..n], doc) + (if items[n] != Null then [Post(key, items[n], doc)] else [])
  }

  function FieldPosts(fields: seq<Field>, doc: DocId): seq<Post>
  {
    if fields == [] then []
    else
      var n := |fields| - 1;
      FieldPosts(fields[..n], doc) + ItemPosts(fields[n].key, Expanded(fields[n].value), doc)
  }

  function RowPosts(row: Row): seq<Post>
  {
    if row.fields.None? then [] else FieldPosts(row.fields.value, row.id)
  }

  function Posts(rows: seq<Row>): seq<Post>
  {
    if rows == [] then [] else Posts(rows[..|rows| - 1]) + RowPosts(rows[|rows| - 1])
  }

  /** What the posts of one key add to its index. */
  function Entries(posts: seq<Post>, key: string): seq<Entry>
  {
    if posts == [] then []
    else
      var n := |posts| - 1;
      Entries(posts[..n], key) + (if posts[n].key == key then [Entry(posts[n].value, posts[n].doc)] else [])
  }

  lemma {:induction false} EntriesHas(posts: seq<Post>, key: string, e: Entry)
    ensures e in Entries(posts, key) <==> Post(key, e.value, e.doc) in posts
    decreases |posts|
  {
    if posts != [] {
      var n := |posts| - 1;
      EntriesHas(posts[..n], key, e);
      assert posts == posts[..n] + [posts[n]];
    }
  }

  type Metas = map<string, MetadataValueIndex>

  /** Every key has an index of its own, which holds exactly the posts of the key. */
  ghost predicate Aggregates(t: Texts, metas: Metas, posts: seq<Post>)
    reads metas.Values
  {
    && (forall k :: k in metas <==> Entries(posts, k) != [])
    && (forall k :: k in metas ==> metas[k].Valid(t) && metas[k].entries == Entries(posts, k))
    && (forall k, l :: k in metas && l in metas && k != l ==> metas[k] != metas[l])
  }

  lemma EntriesNext(posts: seq<Post>, p: Post, key: string)
    ensures Entries(posts + [p], key) == Entries(posts, key) + (if p.key == key then [Entry(p.value, p.doc)] else [])
  {
    assert (posts + [p])[..|posts|] == posts;
  }

  lemma NothingAggregated(t: Texts)
    ensures Aggregates(t, map[], [])
  {
  }

  method AddPost(t: Texts, metas: Metas, p: Post, ghost posts: seq<Post>) returns (r: Metas)
    requires Aggregates(t, metas, posts)
    modifies metas.Values
    ensures Aggregates(t, r, posts + [p])
    ensures forall x :: x in r.Values ==> x in metas.Values || fresh(x)
  {
    r := metas;
    forall k {
      EntriesNext(posts, p, k);
    }
    if p.key !in r {
      var index := new MetadataValueIndex();
      r := r[p.key := index];
    }
    r[p.key].Add(t, p.value, p.doc);
  }

  method AddItems(t: Texts, metas: Metas, key: string, items: seq<Value>, doc: DocId, ghost posts: seq<Post>) returns (r: Metas)
    requires Aggregates(t, metas, posts)
    modifies metas.Values
    ensures Aggregates(t, r, posts + ItemPosts(key, items, doc))
    ensures forall x :: x in r.Values ==> x in metas.Values || fresh(x)
  {
    hide Aggregates;
    r := metas;
    assert posts + ItemPosts(key, items[..0], doc) == posts;
    for i := 0 to |items|
      invariant Aggregates(t, r, posts + ItemPosts(key, items[..i], doc))
      invariant forall x :: x in r.Values ==> x in metas.Values || fresh(x)
    {
      assert items[..i + 1][..i] == items[..i];
      if items[i] != Null {
        ghost var before := posts + ItemPosts(key, items[..i], doc);
        r := AddPost(t, r, Post(key, items[i], doc), before);
        assert before + [Post(key, items[i], doc)] == posts + ItemPosts(key, items[..i + 1], doc);
      } else {
        assert ItemPosts(key, items[..i + 1], doc) == ItemPosts(key, items[..i], doc);
      }
    }
    assert items[..|items|] == items;
  }

  method AddFields(t: Texts, metas: Metas, fields: seq<Field>, doc: DocId, ghost posts: seq<Post>) returns (r: Metas)
    requires Aggregates(t, metas, posts)
    modifies metas.Values
    ensures Aggregates(t, r, posts + FieldPosts(fields, doc))
    ensures forall x :: x in r.Values ==> x in metas.Values || fresh(x)
  {
    hide Aggregates, ItemPosts;
    r := metas;
    assert posts + FieldPosts(fields[..0], doc) == posts;
    for i := 0 to |fields|
      invariant Aggregates(t, r, posts + FieldPosts(fields[..i], doc))
      invariant forall x :: x in r.Values ==> x in metas.Values || fresh(x)
    {
      ghost var before, more := posts + FieldPosts(fields[..i], doc), ItemPosts(fields[i].key, Expanded(fields[i].value), doc);
      r := AddItems(t, r, fields[i].key, Expanded(fields[i].value), doc, before);
      assert fields[..i + 1][..i] == fields[..i];
      assert before + more == posts + FieldPosts(fields[..i + 1], doc);
    }
    assert fields[..|fields|] == fields;
  }

  /** `aggregate_metadata_rows`: one index per key that some document has a non-null value for. */
  method AggregateRows(t: Texts, rows: seq<Row>) returns (metas: Metas)
    ensures Aggregates(t, metas, Posts(rows)) && fresh(metas.Values)
  {
    hide FieldPosts, Aggregates;
    metas := map[];
    NothingAggregated(t);
    for i := 0 to |rows|
      invariant Aggregates(t, metas, Posts(rows[..i])) && fresh(metas.Values)
    {
      assert rows[..i + 1][..i] == rows[..i];
      if rows[i].fields.Some? {
        metas := AddFields(t, metas, rows[i].fields.value, rows[i].id, Posts(rows[..i]));
      } else {
        assert Posts(rows[..i + 1]) == Posts(rows[..i]);
      }
    }
    assert rows[..|rows|] == rows;
  }

  // ---------- what the posts say about the documents ----------

  lemma {:induction false} ItemPostsHas(key: string, items: seq<Value>, doc: DocId, p: Post)
    ensures p in ItemPosts(key, items, doc) <==> p.key == key && p.doc == doc && p.value in items && p.value != Null
    decreases |items|
  {
    if items != [] {
      var n := |items| - 1;
      ItemPostsHas(key, items[..n], doc, p);
      assert items == items[..n] + [items[n]];
    }
  }

  lemma {:induction false} FieldPostsHas(fields: seq<Field>, doc: DocId, p: Post)
    ensures p in FieldPosts(fields, doc) <==>
            p.doc == doc && p.value != Null && exists f :: f in fields && f.key == p.key && p.value in Expanded(f.value)
    decreases |fields|
  {
    if fields != [] {
      var n := |fields| - 1;
      FieldPostsHas(fields[..n], doc, p);
      ItemPostsHas(fields[n].key, Expanded(fields[n].value), doc, p);
      assert fields == fields[..n] + [fields[n]];
    }
  }

  lemma {:induction false} PostsHas(rows: seq<Row>, p: Post)
    ensures p in Posts(rows) <==> exists row :: row in rows && p in RowPosts(row)
    decreases |rows|
  {
    if rows != [] {
      var n := |rows| - 1;
      PostsHas(rows[..n], p);
      assert rows == rows[..n] + [rows[n]];
    }
  }

  /** Some post of the document satisfies the condition. */
  ghost predicate Hits(t: Texts, posts: seq<Post>, c: Condition, d: DocId)
  {
    exists p :: p in posts && c.key == Some(p.key) && p.doc == d && Satisfies(t, c.op, c.value, p.value)
  }

  /** On the posts of one document this is the meaning of the condition. */
  lemma RowHits(t: Texts, row: Row, c: Condition, d: DocId)
    ensures Hits(t, RowPosts(row), c, d) <==> d == row.id && RowSatisfies(t, row, c)
  {
    hide Satisfies, FieldPosts;
    forall p
      ensures p in RowPosts(row) <==>
              row.fields.Some? && p.doc == row.id && p.value != Null &&
              exists f :: f in row.fields.value && f.key == p.key && p.value in Expanded(f.value)
    {
      if row.fields.Some? {
        FieldPostsHas(row.fields.value, row.id, p);
      }
    }
    if RowSatisfies(t, row, c) {
      var f :| f in row.fields.value && FieldSatisfies(t, f, c);
      var v :| v in Expanded(f.value) && v != Null && Satisfies(t, c.op, c.value, v);
      assert Post(f.key, v, row.id) in RowPosts(row);
    }
  }

  lemma AllHits(t: Texts, rows: seq<Row>, c: Condition, d: DocId)
    ensures Hits(t, Posts(rows), c, d) <==> exists row :: row in rows && row.id == d && RowSatisfies(t, row, c)
  {
    hide Satisfies, RowSatisfies, RowPosts;
    forall p {
      PostsHas(rows, p);
    }
    forall row {
      RowHits(t, row, c, d);
    }
    if Hits(t, Posts(rows), c, d) {
      var p :| p in Posts(rows) && c.key == Some(p.key) && p.doc == d && Satisfies(t, c.op, c.value, p.value);
      var row :| row in rows && p in RowPosts(row);
      assert Hits(t, RowPosts(row), c, d);
    }
    if row :| row in rows && row.id == d && RowSatisfies(t, row, c) {
      var p :| p in RowPosts(row) && c.key == Some(p.key) && p.doc == d && Satisfies(t, c.op, c.value, p.value);
      assert p in Posts(rows);
    }
  }
}
