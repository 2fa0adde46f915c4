/**
 * The configuration provider: its dictionary, the context stack and the current
 * path the flattening walk keeps in fields, and the operations that change them.
 */
module Provider {
  import opened Wrappers
  import opened Tokens
  import opened ConfigPath
  import opened Flattener

  /** The exception a write attempt raises. */
  datatype Exception = NotImplemented

  class CouchDbDatabaseConfigurationProvider {
    const databasename: string
    var data: map<string, Token>
    /** The context stack, bottom first. */
    var context: seq<string>
    var currentPath: string

    /** The current path is always the stack joined from bottom to top. */
    ghost predicate Valid()
      reads this
    {
      currentPath == Join(context)
    }

    constructor (databasename: string)
      ensures Valid()
      ensures this.databasename == databasename && data == map[] && context == []
    {
      this.databasename := databasename;
      data := map[];
      context := [];
      currentPath := "";
    }

    /** Writing configuration back is not supported: every attempt throws and, having
        no frame to modify, leaves the dictionary as it was. */
    method Set(key: string, value: Option<string>) returns (thrown: Option<Exception>)
      ensures thrown == Some(NotImplemented)
    {
      thrown := Some(NotImplemented);
    }

    method EnterContext(ctx: string)
      requires Valid()
      modifies this`context, this`currentPath
      ensures Valid() && context == old(context) + [ctx]
    {
      context := context + [ctx];
      currentPath := Join(context);
    }

    method ExitContext()
      requires Valid() && context != []
      modifies this`context, this`currentPath
      ensures Valid() && context == old(context)[..|old(context)| - 1]
    {
      context := context[..|context| - 1];
      currentPath := Join(context);
    }

    /** Walks the properties of `token` in order below the current context. When it
        returns normally the context and the current path are as it found them; when
        it throws (`threw`) the names pushed on the way down stay on the stack. */
    method VisitObject(token: Json) returns (threw: bool)
      requires Valid() && token.Object? && WellFormed(token)
      modifies this`data, this`context, this`currentPath
      ensures Valid()
      ensures var w := PropsWalk(old(context), token, |token.props|);
        && data == ApplyWrites(old(data), w.writes)
        && threw == w.threw.Some?
        && context == old(context) + (if threw then w.threw.value else [])
      decreases token
    {
      ghost var ctx, d0 := context, data;
      threw := false;
      var i := 0;
      while i < |token.props|
        invariant 0 <= i <= |token.props|
        invariant Valid() && context == ctx
        invariant PropsWalk(ctx, token, i).threw.None?
        invariant data == ApplyWrites(d0, PropsWalk(ctx, token, i).writes)
        invariant !threw
      {
        threw := VisitProperty(token.props[i]);
        PropStep(d0, ctx, token, i);
        if threw {
          ThrowStays(ctx, token, i + 1, |token.props|);
          return;
        }
        i := i + 1;
      }
    }

    /** One property of the walk: an empty name throws at once; a name starting with
        an underscore is skipped; otherwise the name is pushed, an object is walked,
        an unconvertible value throws, a scalar is stored at the current path, and the name is popped. */
    method VisitProperty(k: Prop) returns (threw: bool)
      requires Valid() && WellFormed(k.value)
      modifies this`data, this`context, this`currentPath
      ensures Valid()
      ensures var w := PropWalk(old(context), k);
        && data == ApplyWrites(old(data), w.writes)
        && threw == w.threw.Some?
        && context == old(context) + (if threw then w.threw.value else [])
      decreases k
    {
      ghost var ctx, d := context, data;
      if |k.name| == 0 {
        // `k.Name[0]` of an empty name: IndexOutOfRangeException
        assert PropWalk(ctx, k) == Walk([], Some([]));
        assert ctx + [] == ctx;
        return true;
      }
      if k.name[0] == '_' {
        assert PropWalk(ctx, k) == Walk([], None);
        return false;
      }
      EnterContext(k.name);
      if k.value.Object? {
        assert PropWalk(ctx, k) == Nest(k.name, PropsWalk(ctx + [k.name], k.value, |k.value.props|));
        threw := VisitObject(k.value);
        if threw {
          assert ctx + [k.name] + PropsWalk(ctx + [k.name], k.value, |k.value.props|).threw.value
              == ctx + ([k.name] + PropsWalk(ctx + [k.name], k.value, |k.value.props|).threw.value);
          return;
        }
      } else if Unconvertible(k.value) {
        // `Value<string>()` of an array or a BigInteger: InvalidCastException
        assert PropWalk(ctx, k) == Walk([], Some([k.name]));
        return true;
      } else {
        data := data[currentPath := Stored(k.value)];
        assert PropWalk(ctx, k) == Walk([LeafWrite(ctx, [k.name], k.value)], None);
        assert ApplyWrites(d, [LeafWrite(ctx, [k.name], k.value)]) == data;
      }
      ExitContext();
      assert (ctx + [k.name])[..|ctx|] == ctx;
      threw := false;
    }

    /** Flattens every row whose document is an object below the database name and
        the row's id; other rows contribute nothing. Nothing is removed first, and
        when a document throws, the writes already made stay and so do the names
        pushed on the stack. */
    method Load(rows: seq<Row>) returns (threw: bool)
      requires Valid()
      requires forall k :: 0 <= k < |rows| ==> WellFormed(rows[k].doc)
      modifies this`data, this`context, this`currentPath
      ensures Valid()
      ensures var w := LoadWalk(old(context) + [databasename], rows);
        && data == ApplyWrites(old(data), w.writes)
        && threw == w.threw.Some?
        && context == if threw then old(context) + [databasename] + w.threw.value else old(context)
    {
      EnterContext(databasename);
      ghost var ctx, d0 := context, data;
      threw := false;
      var i := 0;
      while i < |rows|
        invariant 0 <= i <= |rows|
        invariant Valid() && context == ctx && !threw
        invariant LoadWalk(ctx, rows[..i]).threw.None?
        invariant data == ApplyWrites(d0, LoadWalk(ctx, rows[..i]).writes)
      {
        threw := VisitRow(rows[i]);
        RowStep(d0, ctx, rows, i);
        if threw {
          LoadThrowStays(ctx, rows, i + 1);
          return;
        }
        i := i + 1;
      }
      assert rows[..i] == rows;
      ExitContext();
      assert (old(context) + [databasename])[..|old(context)|] == old(context);
    }

    /** One row of the load: a document that is an object is walked below the row's
        id, any other document is passed over. */
    method VisitRow(t: Row) returns (threw: bool)
      requires Valid() && WellFormed(t.doc)
      modifies this`data, this`context, this`currentPath
      ensures Valid()
      ensures var w := RowWalk(old(context), t);
        && data == ApplyWrites(old(data), w.writes)
        && threw == w.threw.Some?
        && context == old(context) + (if threw then w.threw.value else [])
    {
      ghost var ctx := context;
      threw := false;
      if t.doc.Object? {
        ghost var pw := PropsWalk(ctx + [t.id], t.doc, |t.doc.props|);
        assert RowWalk(ctx, t) == Nest(t.id, pw);
        EnterContext(t.id);
        threw := VisitObject(t.doc);
        if threw {
          assert ctx + [t.id] + pw.threw.value == ctx + ([t.id] + pw.threw.value);
          return;
        }
        ExitContext();
        assert (ctx + [t.id])[..|ctx|] == ctx;
      } else {
        assert RowWalk(ctx, t) == Walk([], None);
      }
      assert ctx + [] == ctx;
    }
  }
}
