/**
 * The flattening walk, as the sequence of dictionary writes it makes, and what
 * that sequence does to the dictionary. The provider's methods are proved to make
 * exactly these writes; the lemmas here say which keys and values they are.
 */
module Flattener {
  import opened Wrappers
  import opened Tokens
  import opened ConfigPath

  /** One assignment `data[key] = token`. */
  datatype Write = Write(key: string, token: Token)

  /** A property whose name begins with an underscore is store metadata and is skipped. */
  predicate Excluded(name: string) {
    |name| > 0 && name[0] == '_'
  }

  /** The dictionary after the writes, performed first to last. */
  function ApplyWrites(d: map<string, Token>, ws: seq<Write>): map<string, Token>
    decreases |ws|
  {
    if ws == [] then d
    else ApplyWrites(d, ws[..|ws| - 1])[ws[|ws| - 1].key := ws[|ws| - 1].token]
  }

  /** The keys the writes assign. */
  function WrittenKeys(ws: seq<Write>): set<string> {
    set w | w in ws :: w.key
  }

  /** The write for a scalar reached by `path` below the context `ctx`. */
  function LeafWrite(ctx: seq<string>, path: seq<string>, leaf: Json): Write
    requires leaf.Scalar?
  {
    Write(Join(ctx + path), Stored(leaf))
  }

  /** What a walk does: the writes it makes, in order, and, when it throws, the
      names it has pushed on the context stack and not popped. */
  datatype Walk = Walk(writes: seq<Write>, threw: Option<seq<string>>)

  /** A walk below the property `name`: its names left pushed sit above `name`. */
  function Nest(name: string, c: Walk): Walk {
    Walk(c.writes, if c.threw.Some? then Some([name] + c.threw.value) else None)
  }

  /** The walk over the first `n` properties of object `j` when the context stack
      holds `ctx`; it ends at the first property that throws. */
  function PropsWalk(ctx: seq<string>, j: Json, n: nat): Walk
    requires j.Object? && n <= |j.props|
    decreases j, n
  {
    if n == 0 then Walk([], None)
    else
      var w := PropsWalk(ctx, j, n - 1);
      if w.threw.Some? then w
      else
        var c := PropWalk(ctx, j.props[n - 1]);
        Walk(w.writes + c.writes, c.threw)
  }

  /** The walk over one property: an empty name throws before anything is pushed;
      a name starting with an underscore is skipped; otherwise the name is pushed, an
      object is descended into, a value `Value<string>()` cannot convert throws with
      the name still pushed, and a scalar is written at the current path. */
  function PropWalk(ctx: seq<string>, p: Prop): Walk
    decreases p, 0
  {
    if p.name == "" then Walk([], Some([]))
    else if Excluded(p.name) then Walk([], None)
    else if p.value.Object? then Nest(p.name, PropsWalk(ctx + [p.name], p.value, |p.value.props|))
    else if Unconvertible(p.value) then Walk([], Some([p.name]))
    else Walk([LeafWrite(ctx, [p.name], p.value)], None)
  }

  /** The walk for one row: its document's properties below the document id, nothing
      when the document is not an object. */
  function RowWalk(ctx: seq<string>, r: Row): Walk
  {
    if r.doc.Object? then Nest(r.id, PropsWalk(ctx + [r.id], r.doc, |r.doc.props|)) else Walk([], None)
  }

  /** The walk over the rows, first to last, below the context `ctx`; it ends at the
      first row that throws. */
  function LoadWalk(ctx: seq<string>, rows: seq<Row>): Walk
    decreases |rows|
  {
    if rows == [] then Walk([], None)
    else
      var w := LoadWalk(ctx, rows[..|rows| - 1]);
      if w.threw.Some? then w
      else
        var c := RowWalk(ctx, rows[|rows| - 1]);
        Walk(w.writes + c.writes, c.threw)
  }

  /** A property the walk passes without throwing. */
  predicate PropSafe(p: Prop)
    decreases p
  {
    p.name != "" && (!Excluded(p.name) ==> !Unconvertible(p.value) && Safe(p.value))
  }

  /** An object the walk passes without throwing: no name on the way is empty and no
      value on the way is unconvertible (skipped properties are not looked into). */
  predicate Safe(j: Json)
    decreases j
  {
    j.Object? ==> forall i :: 0 <= i < |j.props| ==> PropSafe(j.props[i])
  }

  /** `path` leads from object `j`, through its property number `i`, to the scalar
      `leaf`: every name on the way is kept, every value on the way but the last
      is an object, and the last is not. */
  ghost predicate PathVia(j: Json, i: int, path: seq<string>, leaf: Json)
    decreases j, 0
  {
    && j.Object? && 0 <= i < |j.props| && |path| > 0
    && j.props[i].name == path[0] && path[0] != "" && !Excluded(path[0])
    && (if j.props[i].value.Object? then PathTo(j.props[i].value, path[1..], leaf)
        else |path| == 1 && leaf == j.props[i].value && leaf.Scalar?)
  }

  ghost predicate PathTo(j: Json, path: seq<string>, leaf: Json)
    decreases j, 1
  {
    exists i :: PathVia(j, i, path, leaf)
  }

  /** Every path to a leaf is non-empty, ends at a scalar, and no name on it is skipped. */
  lemma {:induction false} PathFacts(j: Json, path: seq<string>, leaf: Json)
    requires PathTo(j, path, leaf)
    ensures leaf.Scalar? && |path| > 0
    ensures forall k :: 0 <= k < |path| ==> !Excluded(path[k])
    decreases j
  {
    var i :| PathVia(j, i, path, leaf);
    var v := j.props[i].value;
    if v.Object? {
      PathFacts(v, path[1..], leaf);
      forall k | 0 <= k < |path| ensures !Excluded(path[k]) {
        if k > 0 { assert path[k] == path[1..][k - 1]; }
      }
    }
  }

  /** Appending writes is performing them afterwards. */
  lemma {:induction false} ApplyAppend(d: map<string, Token>, a: seq<Write>, b: seq<Write>)
    ensures ApplyWrites(d, a + b) == ApplyWrites(ApplyWrites(d, a), b)
    decreases |b|
  {
    if b == [] {
      assert a + b == a;
    } else {
      var b' := b[..|b| - 1];
      assert (a + b)[..|a + b| - 1] == a + b';
      ApplyAppend(d, a, b');
    }
  }

  /** Writes only add keys: the result holds the old keys and the written ones and
      no other, and a key nobody writes keeps its old value. */
  lemma {:induction false} ApplyKeys(d: map<string, Token>, ws: seq<Write>)
    ensures ApplyWrites(d, ws).Keys == d.Keys + WrittenKeys(ws)
    ensures forall k :: k in d && k !in WrittenKeys(ws) ==> ApplyWrites(d, ws)[k] == d[k]
    decreases |ws|
  {
    if ws != [] {
      var ws' := ws[..|ws| - 1];
      ApplyKeys(d, ws');
      assert ws == ws' + [ws[|ws| - 1]];
      assert WrittenKeys(ws) == WrittenKeys(ws') + {ws[|ws| - 1].key};
    }
  }

  /** The last write to a key decides its value. */
  lemma {:induction false} LastWriteWins(d: map<string, Token>, ws: seq<Write>, i: nat)
    requires i < |ws|
    requires forall j :: i < j < |ws| ==> ws[j].key != ws[i].key
    ensures ws[i].key in ApplyWrites(d, ws) && ApplyWrites(d, ws)[ws[i].key] == ws[i].token
    decreases |ws|
  {
    if i < |ws| - 1 {
      var ws' := ws[..|ws| - 1];
      LastWriteWins(d, ws', i);
    }
  }

  /** Once the walk has thrown, the remaining properties are not visited. */
  lemma {:induction false} ThrowStays(ctx: seq<string>, j: Json, m: nat, n: nat)
    requires j.Object? && m <= n <= |j.props| && PropsWalk(ctx, j, m).threw.Some?
    ensures PropsWalk(ctx, j, n) == PropsWalk(ctx, j, m)
    decreases n
  {
    if m < n {
      ThrowStays(ctx, j, m, n - 1);
    }
  }

  /** One property of the walk, after properties that did not throw. */
  lemma PropStep(d: map<string, Token>, ctx: seq<string>, j: Json, i: nat)
    requires j.Object? && i < |j.props| && PropsWalk(ctx, j, i).threw.None?
    ensures var w, c := PropsWalk(ctx, j, i), PropWalk(ctx, j.props[i]);
      && PropsWalk(ctx, j, i + 1) == Walk(w.writes + c.writes, c.threw)
      && ApplyWrites(d, PropsWalk(ctx, j, i + 1).writes) == ApplyWrites(ApplyWrites(d, w.writes), c.writes)
  {
    ApplyAppend(d, PropsWalk(ctx, j, i).writes, PropWalk(ctx, j.props[i]).writes);
  }

  /** One row of the load, after rows that did not throw. */
  lemma RowStep(d: map<string, Token>, ctx: seq<string>, rows: seq<Row>, i: nat)
    requires i < |rows| && LoadWalk(ctx, rows[..i]).threw.None?
    ensures var w, c := LoadWalk(ctx, rows[..i]), RowWalk(ctx, rows[i]);
      && LoadWalk(ctx, rows[..i + 1]) == Walk(w.writes + c.writes, c.threw)
      && ApplyWrites(d, LoadWalk(ctx, rows[..i + 1]).writes) == ApplyWrites(ApplyWrites(d, w.writes), c.writes)
  {
    assert rows[..i + 1][..i] == rows[..i];
    ApplyAppend(d, LoadWalk(ctx, rows[..i]).writes, RowWalk(ctx, rows[i]).writes);
  }

  /** Once a row has thrown, the remaining rows are not visited. */
  lemma {:induction false} LoadThrowStays(ctx: seq<string>, rows: seq<Row>, m: nat)
    requires m <= |rows| && LoadWalk(ctx, rows[..m]).threw.Some?
    ensures LoadWalk(ctx, rows) == LoadWalk(ctx, rows[..m])
    decreases |rows|
  {
    if m == |rows| {
      assert rows[..m] == rows;
    } else {
      var rows' := rows[..|rows| - 1];
      assert rows'[..m] == rows[..m];
      LoadThrowStays(ctx, rows', m);
    }
  }

  /** Nothing is undone when a row throws: the writes of the rows before it stay, in
      front of whatever the load writes after them. */
  lemma {:induction false} LoadKeepsEarlierWrites(ctx: seq<string>, rows: seq<Row>, m: nat)
    requires m <= |rows|
    ensures LoadWalk(ctx, rows[..m]).writes <= LoadWalk(ctx, rows).writes
    decreases |rows|
  {
    if m == |rows| {
      assert rows[..m] == rows;
    } else {
      var rows' := rows[..|rows| - 1];
      assert rows'[..m] == rows[..m];
      LoadKeepsEarlierWrites(ctx, rows', m);
    }
  }

  /** The walk over the first `n` properties does not throw exactly when each of them is safe. */
  lemma {:induction false} WalkSafe(ctx: seq<string>, j: Json, n: nat)
    requires j.Object? && n <= |j.props|
    ensures PropsWalk(ctx, j, n).threw.None? <==> forall i :: 0 <= i < n ==> PropSafe(j.props[i])
    decreases j, n + 1
  {
    if n > 0 {
      WalkSafe(ctx, j, n - 1);
      PropWalkSafe(ctx, j, n - 1);
    }
  }

  /** The walk over one property does not throw exactly when the property is safe. */
  lemma {:induction false} PropWalkSafe(ctx: seq<string>, j: Json, i: nat)
    requires j.Object? && i < |j.props|
    ensures PropWalk(ctx, j.props[i]).threw.None? <==> PropSafe(j.props[i])
    decreases j, i + 1
  {
    var p := j.props[i];
    if p.name != "" && !Excluded(p.name) && p.value.Object? {
      WalkSafe(ctx + [p.name], p.value, |p.value.props|);
    }
  }

  /** The walk over the rows does not throw exactly when every object document is safe. */
  lemma {:induction false} LoadSafe(ctx: seq<string>, rows: seq<Row>)
    ensures LoadWalk(ctx, rows).threw.None? <==> forall k :: 0 <= k < |rows| && rows[k].doc.Object? ==> Safe(rows[k].doc)
    decreases |rows|
  {
    if rows != [] {
      var rows', r := rows[..|rows| - 1], rows[|rows| - 1];
      LoadSafe(ctx, rows');
      if r.doc.Object? {
        WalkSafe(ctx + [r.id], r.doc, |r.doc.props|);
      }
      assert forall k :: 0 <= k < |rows'| ==> rows'[k] == rows[k];
    }
  }

  /** Every write of the walk comes from a path to a kept scalar, at the key that
      joins the context and the path. */
  lemma {:induction false} WalkSound(ctx: seq<string>, j: Json, n: nat, w: Write)
    requires j.Object? && n <= |j.props| && w in PropsWalk(ctx, j, n).writes
    ensures exists i, path, leaf :: 0 <= i < n && PathVia(j, i, path, leaf) && leaf.Scalar? && w == LeafWrite(ctx, path, leaf)
    decreases j, n + 1
  {
    var prev := PropsWalk(ctx, j, n - 1);
    if prev.threw.Some? || w in prev.writes {
      WalkSound(ctx, j, n - 1, w);
    } else {
      PropWalkSound(ctx, j, n - 1, w);
    }
  }

  /** The step of the previous lemma for one property. */
  lemma {:induction false} PropWalkSound(ctx: seq<string>, j: Json, i: nat, w: Write)
    requires j.Object? && i < |j.props| && w in PropWalk(ctx, j.props[i]).writes
    ensures exists path, leaf :: PathVia(j, i, path, leaf) && leaf.Scalar? && w == LeafWrite(ctx, path, leaf)
    decreases j, i + 1
  {
    var p := j.props[i];
    if p.value.Object? {
      WalkSound(ctx + [p.name], p.value, |p.value.props|, w);
      var i', path', leaf :| 0 <= i' < |p.value.props| && PathVia(p.value, i', path', leaf) && leaf.Scalar? && w == LeafWrite(ctx + [p.name], path', leaf);
      ViaChild(j, i, i', path', leaf);
      assert ctx + [p.name] + path' == ctx + ([p.name] + path');
    } else {
      assert PathVia(j, i, [p.name], p.value);
    }
  }

  /** A path in the object held by property `i` extends to a path from the parent. */
  lemma ViaChild(j: Json, i: nat, i': nat, path: seq<string>, leaf: Json)
    requires j.Object? && i < |j.props| && j.props[i].value.Object?
    requires j.props[i].name != "" && !Excluded(j.props[i].name)
    requires PathVia(j.props[i].value, i', path, leaf)
    ensures PathVia(j, i, [j.props[i].name] + path, leaf)
  {
    assert ([j.props[i].name] + path)[1..] == path;
  }

  /** A walk that does not throw writes every path to a kept scalar, at the key that
      joins the context and the path. */
  lemma {:induction false} WalkComplete(ctx: seq<string>, j: Json, n: nat, i: nat, path: seq<string>, leaf: Json)
    requires j.Object? && i < n <= |j.props| && PathVia(j, i, path, leaf)
    requires PropsWalk(ctx, j, n).threw.None?
    ensures leaf.Scalar? && LeafWrite(ctx, path, leaf) in PropsWalk(ctx, j, n).writes
    decreases j, n + 1
  {
    if i < n - 1 {
      WalkComplete(ctx, j, n - 1, i, path, leaf);
    } else {
      PropWalkComplete(ctx, j, i, path, leaf);
    }
  }

  /** The step of the previous lemma for the property the path goes through. */
  lemma {:induction false} PropWalkComplete(ctx: seq<string>, j: Json, i: nat, path: seq<string>, leaf: Json)
    requires j.Object? && i < |j.props| && PathVia(j, i, path, leaf)
    requires PropWalk(ctx, j.props[i]).threw.None?
    ensures leaf.Scalar? && LeafWrite(ctx, path, leaf) in PropWalk(ctx, j.props[i]).writes
    decreases j, i + 1
  {
    var p := j.props[i];
    if p.value.Object? {
      assert PathTo(p.value, path[1..], leaf);
      var i' :| PathVia(p.value, i', path[1..], leaf);
      WalkComplete(ctx + [p.name], p.value, |p.value.props|, i', path[1..], leaf);
      ChildKey(ctx, path);
    } else {
      assert path == [p.name];
    }
  }

  /** Pushing the first name of a path and then the rest is pushing the whole path. */
  lemma ChildKey(ctx: seq<string>, path: seq<string>)
    requires path != []
    ensures ctx + [path[0]] + path[1..] == ctx + path
  {
    assert path == [path[0]] + path[1..];
  }

  /** Every write of a load comes from a row whose document is an object, at the
      key that joins the context, the row's id and a path to a kept scalar. */
  lemma {:induction false} LoadWalkSound(ctx: seq<string>, rows: seq<Row>, w: Write)
    requires w in LoadWalk(ctx, rows).writes
    ensures exists k, path, leaf :: 0 <= k < |rows| && rows[k].doc.Object? && PathTo(rows[k].doc, path, leaf)
              && leaf.Scalar? && w == LeafWrite(ctx + [rows[k].id], path, leaf)
    decreases |rows|
  {
    var rows' := rows[..|rows| - 1];
    var r := rows[|rows| - 1];
    var prev := LoadWalk(ctx, rows');
    if prev.threw.Some? || w in prev.writes {
      LoadWalkSound(ctx, rows', w);
      var k, path, leaf :| 0 <= k < |rows'| && rows'[k].doc.Object? && PathTo(rows'[k].doc, path, leaf)
              && leaf.Scalar? && w == LeafWrite(ctx + [rows'[k].id], path, leaf);
      assert rows'[k] == rows[k];
    } else {
      WalkSound(ctx + [r.id], r.doc, |r.doc.props|, w);
      var i, path, leaf :| 0 <= i < |r.doc.props| && PathVia(r.doc, i, path, leaf) && leaf.Scalar? && w == LeafWrite(ctx + [r.id], path, leaf);
      PathFacts(r.doc, path, leaf);
      assert PathTo(rows[|rows| - 1].doc, path, leaf);
    }
  }

  /** A load that does not throw writes every kept scalar of every object document. */
  lemma {:induction false} LoadWalkComplete(ctx: seq<string>, rows: seq<Row>, k: nat, path: seq<string>, leaf: Json)
    requires k < |rows| && PathTo(rows[k].doc, path, leaf) && LoadWalk(ctx, rows).threw.None?
    ensures leaf.Scalar? && LeafWrite(ctx + [rows[k].id], path, leaf) in LoadWalk(ctx, rows).writes
    decreases |rows|
  {
    var rows' := rows[..|rows| - 1];
    var i :| PathVia(rows[k].doc, i, path, leaf);
    var prev := LoadWalk(ctx, rows');
    assert prev.threw.None?;
    if k < |rows| - 1 {
      assert rows'[k] == rows[k];
      LoadWalkComplete(ctx, rows', k, path, leaf);
    } else {
      WalkComplete(ctx + [rows[k].id], rows[k].doc, |rows[k].doc.props|, i, path, leaf);
    }
  }

  /** `w` is the write a load below `[db]` makes for the scalar at `path` in row `k`:
      the key is the database name, the document id and the path's names joined by the
      delimiter, no name on the path is skipped, and the value is the stored scalar. */
  ghost predicate LoadedAt(db: string, rows: seq<Row>, w: Write, k: int, path: seq<string>, leaf: Json) {
    && 0 <= k < |rows| && rows[k].doc.Object? && PathTo(rows[k].doc, path, leaf)
    && leaf.Scalar? && path != [] && (forall m :: 0 <= m < |path| ==> !Excluded(path[m]))
    && w.key == db + [KeyDelimiter] + rows[k].id + [KeyDelimiter] + Join(path)
    && w.token == Stored(leaf)
  }

  /** Every key a load from a fresh provider writes has that shape. */
  lemma LoadedKeyShape(db: string, rows: seq<Row>, w: Write)
    requires w in LoadWalk([db], rows).writes
    ensures exists k, path, leaf :: LoadedAt(db, rows, w, k, path, leaf)
  {
    LoadWalkSound([db], rows, w);
    var k, path, leaf :| 0 <= k < |rows| && rows[k].doc.Object? && PathTo(rows[k].doc, path, leaf)
      && leaf.Scalar? && w == LeafWrite([db] + [rows[k].id], path, leaf);
    PathFacts(rows[k].doc, path, leaf);
    assert [db] + [rows[k].id] == [db, rows[k].id];
    KeyShape(db, rows[k].id, path);
    assert LoadedAt(db, rows, w, k, path, leaf);
  }

  /** A loaded key is the database name, the document id and the path's names,
      in that order, separated by the delimiter. */
  lemma KeyShape(db: string, id: string, path: seq<string>)
    requires path != []
    ensures Join([db, id] + path) == db + [KeyDelimiter] + id + [KeyDelimiter] + Join(path)
  {
    JoinConcat([db, id], path);
    assert [db, id] == [db] + [id];
    JoinConcat([db], [id]);
  }

  /** A row `{"a": "1", "n": 9223372036854775808}`: `a` is stored, then `n`, held as a
      `BigInteger`, throws with the document id and `n` still pushed. */
  lemma OutOfRangeIntegerThrows(db: string, text: string)
    ensures LoadWalk([db], [Row("x", Object([Prop("a", Scalar(String, "1")), Prop("n", BigInteger(text))]))])
         == Walk([Write(db + [KeyDelimiter] + "x" + [KeyDelimiter] + "a", JValue(String, Some("1")))], Some(["x", "n"]))
  {
    var doc := Object([Prop("a", Scalar(String, "1")), Prop("n", BigInteger(text))]);
    var rows := [Row("x", doc)];
    assert rows[..0] == [];
    assert [db] + ["x"] == [db, "x"];
    assert PropsWalk([db, "x"], doc, 1) == Walk([LeafWrite([db, "x"], ["a"], Scalar(String, "1"))], None);
    assert PropsWalk([db, "x"], doc, 2) == Walk([LeafWrite([db, "x"], ["a"], Scalar(String, "1"))], Some(["n"]));
    KeyShape(db, "x", ["a"]);
    assert Join(["a"]) == "a";
    var w := Write(db + [KeyDelimiter] + "x" + [KeyDelimiter] + "a", JValue(String, Some("1")));
    assert LeafWrite([db, "x"], ["a"], Scalar(String, "1")) == w;
    assert ["x"] + ["n"] == ["x", "n"];
    assert RowWalk([db], rows[0]) == Walk([w], Some(["x", "n"]));
    assert LoadWalk([db], rows[..0]) == Walk([], None);
  }
}
