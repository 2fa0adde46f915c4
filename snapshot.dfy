/**
 * The read-only queries the provider answers from its dictionary: the point
 * lookup, the child-key listing, and what they return for a loaded document.
 */
module Snapshot {
  import opened Wrappers
  import opened Tokens
  import opened ConfigPath
  import opened Flattener

  /** The outcome of `TryGet`: it returns true with a value, returns false with a
      null value, or dereferences a null value and throws. */
  datatype Lookup = Found(value: string) | NotFound | NullReference

  /** `TryGet`: a present key whose token is a JValue of an accepted kind is found
      with its rendering; any other key is not found, and nothing is thrown for
      it; a found JValue whose value is null throws on `ToString()`. */
  function TryGet(data: map<string, Token>, key: string): (r: Lookup)
    ensures r.Found? <==> key in data && data[key].JValue? && Available(data[key].kind) && data[key].value.Some?
    ensures r.Found? ==> Some(r.value) == data[key].value
    ensures r.NullReference? <==> key in data && data[key].JValue? && Available(data[key].kind) && data[key].value.None?
    ensures key !in data ==> r == NotFound
  {
    if key !in data || !data[key].JValue? then NotFound
    else if !Available(data[key].kind) then NotFound
    else match data[key].value
      case Some(s) => Found(s)
      case None => NullReference
  }

  /** The prefix `GetChildKeys` selects by: nothing for a null or blank parent path,
      the path and a delimiter otherwise. */
  function ChildPrefix(parentPath: Option<string>): string
  {
    if IsNullOrWhiteSpace(parentPath) then "" else parentPath.value + [KeyDelimiter]
  }

  /** The keys among `keys` that start with `prefix` and whose next segment is `s`. */
  ghost function KeysWithSegment(keys: set<string>, prefix: string, s: string): set<string>
  {
    set k | k in keys && StartsWith(k, prefix) && Segment(k, |prefix|) == s
  }

  /** One next segment for each key that starts with `prefix`, in no particular order. */
  ghost function ChildSegments(keys: set<string>, prefix: string): multiset<string>
    decreases keys
  {
    if keys == {} then multiset{}
    else
      var k :| k in keys;
      (if StartsWith(k, prefix) then multiset{Segment(k, |prefix|)} else multiset{})
      + ChildSegments(keys - {k}, prefix)
  }

  /** `GetChildKeys`; `earlierKeys` is not consulted. */
  ghost function GetChildKeys(data: map<string, Token>, earlierKeys: seq<string>, parentPath: Option<string>): multiset<string>
  {
    ChildSegments(data.Keys, ChildPrefix(parentPath))
  }

  /** Each segment occurs once for every key with that prefix and next segment. */
  lemma {:induction false} ChildSegmentsCount(keys: set<string>, prefix: string, s: string)
    ensures ChildSegments(keys, prefix)[s] == |KeysWithSegment(keys, prefix, s)|
    decreases keys
  {
    if keys != {} {
      var k :| k in keys && ChildSegments(keys, prefix) ==
        (if StartsWith(k, prefix) then multiset{Segment(k, |prefix|)} else multiset{})
        + ChildSegments(keys - {k}, prefix);
      ChildSegmentsCount(keys - {k}, prefix, s);
      if StartsWith(k, prefix) && Segment(k, |prefix|) == s {
        assert KeysWithSegment(keys, prefix, s) == KeysWithSegment(keys - {k}, prefix, s) + {k};
      } else {
        assert KeysWithSegment(keys, prefix, s) == KeysWithSegment(keys - {k}, prefix, s);
      }
    }
  }

  /** The listing has one item per key under the prefix. */
  lemma {:induction false} ChildSegmentsSize(keys: set<string>, prefix: string)
    ensures |ChildSegments(keys, prefix)| == |set k | k in keys && StartsWith(k, prefix)|
    decreases keys
  {
    if keys != {} {
      var k :| k in keys && ChildSegments(keys, prefix) ==
        (if StartsWith(k, prefix) then multiset{Segment(k, |prefix|)} else multiset{})
        + ChildSegments(keys - {k}, prefix);
      ChildSegmentsSize(keys - {k}, prefix);
      var under := set k' | k' in keys && StartsWith(k', prefix);
      var under' := set k' | k' in keys - {k} && StartsWith(k', prefix);
      if StartsWith(k, prefix) {
        assert under == under' + {k};
      } else {
        assert under == under';
      }
    }
  }

  /** No listed item holds a delimiter. */
  lemma {:induction false} ChildSegmentsAreSegments(keys: set<string>, prefix: string)
    ensures forall s :: s in ChildSegments(keys, prefix) ==> KeyDelimiter !in s
    decreases keys
  {
    if keys != {} {
      var k :| k in keys && ChildSegments(keys, prefix) ==
        (if StartsWith(k, prefix) then multiset{Segment(k, |prefix|)} else multiset{})
        + ChildSegments(keys - {k}, prefix);
      ChildSegmentsAreSegments(keys - {k}, prefix);
      forall s | s in ChildSegments(keys, prefix) ensures KeyDelimiter !in s {
        if !(StartsWith(k, prefix) && s == Segment(k, |prefix|)) {
          assert s in ChildSegments(keys - {k}, prefix);
        }
      }
    }
  }

  /** `GetChildKeys` in full: for every segment, how often it is listed. */
  lemma GetChildKeysSpec(data: map<string, Token>, earlierKeys: seq<string>, parentPath: Option<string>)
    ensures var prefix := ChildPrefix(parentPath);
      && (forall s :: GetChildKeys(data, earlierKeys, parentPath)[s] == |KeysWithSegment(data.Keys, prefix, s)|)
      && |GetChildKeys(data, earlierKeys, parentPath)| == |set k | k in data && StartsWith(k, prefix)|
      && (forall s :: s in GetChildKeys(data, earlierKeys, parentPath) ==> KeyDelimiter !in s)
  {
    var prefix := ChildPrefix(parentPath);
    forall s ensures GetChildKeys(data, earlierKeys, parentPath)[s] == |KeysWithSegment(data.Keys, prefix, s)| {
      ChildSegmentsCount(data.Keys, prefix, s);
    }
    ChildSegmentsSize(data.Keys, prefix);
    ChildSegmentsAreSegments(data.Keys, prefix);
  }

  /** Below the parent path `a`, the keys `a:b:c` and `a:d` list the children `b` and `d`. */
  lemma ChildKeysExample(t: Token)
    ensures GetChildKeys(map["a:b:c" := t, "a:d" := t], [], Some("a")) == multiset{"b", "d"}
  {
    var keys, prefix := {"a:b:c", "a:d"}, "a:";
    var m := GetChildKeys(map["a:b:c" := t, "a:d" := t], [], Some("a"));
    ExamplePrefix();
    assert map["a:b:c" := t, "a:d" := t].Keys == keys;
    forall s ensures m[s] == multiset{"b", "d"}[s] {
      ChildSegmentsCount(keys, prefix, s);
      ExampleCount(s);
    }
  }

  /** The parent path `a` selects the keys that start with `a:`. */
  lemma ExamplePrefix()
    ensures ChildPrefix(Some("a")) == "a:"
  {
    assert !IsWhiteSpace("a"[0]);
  }

  /** Below `a:`, the keys `a:b:c` and `a:d` have the next segments `b` and `d`, once each. */
  lemma ExampleCount(s: string)
    ensures |KeysWithSegment({"a:b:c", "a:d"}, "a:", s)| == if s == "b" || s == "d" then 1 else 0
  {
    var keys, prefix := {"a:b:c", "a:d"}, "a:";
    assert IndexOf("a:b:c", KeyDelimiter, 2) == 3;
    assert Segment("a:b:c", 2) == "b";
    assert Segment("a:d", 2) == "d";
    if s == "b" {
      assert KeysWithSegment(keys, prefix, s) == {"a:b:c"};
    } else if s == "d" {
      assert KeysWithSegment(keys, prefix, s) == {"a:d"};
    } else {
      assert KeysWithSegment(keys, prefix, s) == {};
    }
  }

  /** What looking up a flattened scalar gives: its rendering, or a null-reference
      failure for a null scalar. */
  function Expected(leaf: Json): Lookup
    requires leaf.Scalar?
  {
    if leaf.kind == Null || leaf.kind == Undefined then NullReference else Found(leaf.text)
  }

  /** Round trip: after a walk that does not throw over a document whose keys do not
      collide, looking up the key of any kept scalar gives that scalar back. */
  lemma {:induction false} RoundTrip(d: map<string, Token>, ctx: seq<string>, doc: Json, path: seq<string>, leaf: Json)
    requires doc.Object? && PathTo(doc, path, leaf) && Safe(doc)
    requires var ws := PropsWalk(ctx, doc, |doc.props|).writes;
      forall a, b :: 0 <= a < b < |ws| ==> ws[a].key != ws[b].key
    ensures leaf.Scalar?
    ensures TryGet(ApplyWrites(d, PropsWalk(ctx, doc, |doc.props|).writes), Join(ctx + path)) == Expected(leaf)
  {
    var ws := PropsWalk(ctx, doc, |doc.props|).writes;
    var i :| PathVia(doc, i, path, leaf);
    WalkSafe(ctx, doc, |doc.props|);
    WalkComplete(ctx, doc, |doc.props|, i, path, leaf);
    var w := LeafWrite(ctx, path, leaf);
    var k :| 0 <= k < |ws| && ws[k] == w;
    LastWriteWins(d, ws, k);
  }

  /** Every token a load writes is a JValue of kind String, so after loading into an
      empty dictionary, whether or not the load threw, the kind filter never rejects:
      a key is not found exactly when it is absent. */
  lemma {:induction false} LoadedLookup(ctx: seq<string>, rows: seq<Row>, key: string)
    ensures var data := ApplyWrites(map[], LoadWalk(ctx, rows).writes);
      TryGet(data, key) == NotFound <==> key !in data
  {
    var ws := LoadWalk(ctx, rows).writes;
    var data := ApplyWrites(map[], ws);
    ApplyKeys(map[], ws);
    if key in data {
      var i :| 0 <= i < |ws| && ws[i].key == key && forall j :: i < j < |ws| ==> ws[j].key != key by {
        LastIndex(ws, key);
      }
      LastWriteWins(map[], ws, i);
      LoadWalkSound(ctx, rows, ws[i]);
    }
  }

  /** A written key has a last write. */
  lemma {:induction false} LastIndex(ws: seq<Write>, key: string)
    requires key in WrittenKeys(ws)
    ensures exists i :: 0 <= i < |ws| && ws[i].key == key && forall j :: i < j < |ws| ==> ws[j].key != key
    decreases |ws|
  {
    var n := |ws| - 1;
    if ws[n].key == key {
      assert ws[n].key == key;
    } else {
      var ws' := ws[..n];
      assert key in WrittenKeys(ws') by {
        var w :| w in ws && w.key == key;
        var m :| 0 <= m < |ws| && ws[m] == w;
        assert ws'[m] == w;
      }
      LastIndex(ws', key);
      var i :| 0 <= i < |ws'| && ws'[i].key == key && forall j :: i < j < |ws'| ==> ws'[j].key != key;
      forall j | i < j < |ws| ensures ws[j].key != key {
        if j < n { assert ws[j] == ws'[j]; }
      }
      assert ws[i] == ws'[i];
    }
  }
}
