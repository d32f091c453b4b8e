/** The todo store: an object bound by its caller that maps generated ids to
    todo bodies `{content, done}`, and the five operations over it —
    `row` (list), `get`, `del`, `add` and `set`. Every operation reports
    through an error value instead of throwing. */
module TodoModel {

  import opened JsValues

  // ---------------------------------------------------------------------
  // Data model
  // ---------------------------------------------------------------------

  /** What the store keeps under an id. The id itself is not part of it. */
  datatype Todo = Todo(content: string, done: bool)

  /** What `row` lists: a body with its id merged in. */
  datatype Record = Record(id: string, content: string, done: bool)

  /** A body with its key merged in; the body can be read back unchanged. */
  function Merge(id: string, t: Todo): (r: Record)
    ensures r.id == id
    ensures BodyOf(r) == t
  {
    Record(id, t.content, t.done)
  }

  function BodyOf(r: Record): (t: Todo)
  {
    Todo(r.content, r.done)
  }

  /** The constraint an input object breaks, named by its field. */
  datatype Violation = Missing(field: string) | WrongType(field: string)

  /** `InvalidArgument`: a bare `id` argument of `get` or `del` is not a
      string. `ValidationError`: an input object of `add` or `set` breaks
      one of their field rules. */
  datatype Error = InvalidArgument | ValidationError(violation: Violation)

  /** What a callback that is given a value receives: an error (or none)
      and that value. A callback given only an error receives an
      `Option<Error>`. */
  datatype Reply<+T> = Reply(err: Option<Error>, value: T)

  /** The outcome of checking an input object against a rule set. */
  datatype Checked<+T> = Accepted(value: T) | Rejected(violation: Violation)

  /** A requested update: the id to change and the fields that were given. */
  datatype Patch = Patch(id: string, content: Option<string>, done: Option<bool>)

  // ---------------------------------------------------------------------
  // Validation of input objects
  // ---------------------------------------------------------------------

  /** The field rules, each on its own. */
  predicate IsOptionalString(v: Value) { v.Undefined? || v.Str? }
  predicate IsOptionalBool(v: Value) { v.Undefined? || v.Bool? }

  /** `add`'s rules: `content` present and a string, `done` absent or a
      boolean; other properties are ignored. The first field that breaks
      its rule is reported. */
  function CheckAdd(o: JsObject): (r: Checked<Todo>)
    ensures r.Accepted? <==> Field(o, "content").Str? && IsOptionalBool(Field(o, "done"))
    ensures r.Accepted? ==> r.value.content == Field(o, "content").s
    ensures r.Accepted? ==> (r.value.done <==> Field(o, "done") == Bool(true))
    ensures r == Rejected(Missing("content")) <==> Field(o, "content") == Undefined
    ensures r == Rejected(WrongType("done")) ==> Field(o, "content").Str?
  {
    var content := Field(o, "content");
    var done := Field(o, "done");
    if content.Undefined? then Rejected(Missing("content"))
    else if !content.Str? then Rejected(WrongType("content"))
    else if !IsOptionalBool(done) then Rejected(WrongType("done"))
    else Accepted(Todo(content.s, done.Bool? && done.b))
  }

  /** `set`'s rules: `id` present and a string, `content` absent or a
      string, `done` absent or a boolean; other properties are ignored. */
  function CheckSet(o: JsObject): (r: Checked<Patch>)
    ensures r.Accepted? <==>
              Field(o, "id").Str? && IsOptionalString(Field(o, "content")) && IsOptionalBool(Field(o, "done"))
    ensures r.Accepted? ==> r.value.id == Field(o, "id").s
    ensures r.Accepted? ==> (r.value.content.Some? <==> Field(o, "content").Str?)
    ensures r.Accepted? && r.value.content.Some? ==> r.value.content.value == Field(o, "content").s
    ensures r.Accepted? ==> (r.value.done.Some? <==> Field(o, "done").Bool?)
    ensures r.Accepted? && r.value.done.Some? ==> r.value.done.value == Field(o, "done").b
    ensures r == Rejected(Missing("id")) <==> Field(o, "id") == Undefined
  {
    var id := Field(o, "id");
    var content := Field(o, "content");
    var done := Field(o, "done");
    if id.Undefined? then Rejected(Missing("id"))
    else if !id.Str? then Rejected(WrongType("id"))
    else if !IsOptionalString(content) then Rejected(WrongType("content"))
    else if !IsOptionalBool(done) then Rejected(WrongType("done"))
    else
      Accepted(Patch(id.s,
                     if content.Str? then Some(content.s) else None,
                     if done.Bool? then Some(done.b) else None))
  }

  /** Merging a patch into a body: a field that was given overwrites the
      stored one, a field that was not keeps it. */
  function Apply(t: Todo, p: Patch): (u: Todo)
    ensures p.content.None? ==> u.content == t.content
    ensures p.done.None? ==> u.done == t.done
    ensures p.content.Some? ==> u.content == p.content.value
    ensures p.done.Some? ==> u.done == p.done.value
  {
    Todo(if p.content.Some? then p.content.value else t.content,
         if p.done.Some? then p.done.value else t.done)
  }

  /** Applying the same patch twice is the same as applying it once. */
  lemma ApplyIdempotent(t: Todo, p: Patch)
    ensures Apply(Apply(t, p), p) == Apply(t, p)
  {
  }

  /** A listed record written out as an object literal. */
  function ObjectOf(r: Record): (o: JsObject)
  {
    map["id" := Str(r.id), "content" := Str(r.content), "done" := Bool(r.done)]
  }

  /** What `row` lists is valid input to `set`, and setting it changes
      nothing. Because properties outside a rule set are ignored, it is
      also valid input to `add`, whose body is the listed one. */
  lemma RecordRoundTrip(r: Record)
    ensures CheckAdd(ObjectOf(r)) == Accepted(BodyOf(r))
    ensures CheckSet(ObjectOf(r)) == Accepted(Patch(r.id, Some(r.content), Some(r.done)))
    ensures Apply(BodyOf(r), CheckSet(ObjectOf(r)).value) == BodyOf(r)
  {
    var o := ObjectOf(r);
    assert Field(o, "id") == Str(r.id);
    assert Field(o, "content") == Str(r.content);
    assert Field(o, "done") == Bool(r.done);
  }

  // ---------------------------------------------------------------------
  // Property order and listing
  // ---------------------------------------------------------------------

  predicate Distinct(s: seq<string>)
  {
    forall i, j :: 0 <= i < j < |s| ==> s[i] != s[j]
  }

  /** The property order after `delete`: the same order, that one key gone. */
  function Without(keys: seq<string>, id: string): (r: seq<string>)
    ensures forall k :: k in r <==> k in keys && k != id
    ensures |r| <= |keys|
    ensures Distinct(keys) ==> Distinct(r)
    ensures id !in keys ==> r == keys
  {
    if keys == [] then []
    else
      var rest := Without(keys[1..], id);
      assert Distinct(keys) ==> keys[0] !in keys[1..] && Distinct(keys[1..]);
      (if keys[0] == id then [] else [keys[0]]) + rest
  }

  /** Each body merged with its key, in property order. */
  function Rows(keys: seq<string>, db: map<string, Todo>): (list: seq<Record>)
    requires forall k :: k in keys ==> k in db
    ensures |list| == |keys|
    ensures forall i :: 0 <= i < |keys| ==> list[i] == Merge(keys[i], db[keys[i]])
  {
    if keys == [] then [] else [Merge(keys[0], db[keys[0]])] + Rows(keys[1..], db)
  }

  /** A listing with the entries of one id left out. */
  function DropId(list: seq<Record>, id: string): (r: seq<Record>)
    ensures forall x :: x in r <==> x in list && x.id != id
  {
    if list == [] then []
    else (if list[0].id == id then [] else [list[0]]) + DropId(list[1..], id)
  }

  /** A listing with the entry of one id replaced, in place. */
  function ReplaceId(list: seq<Record>, rec: Record): (r: seq<Record>)
    ensures |r| == |list|
    ensures forall i :: 0 <= i < |list| ==> r[i] == if list[i].id == rec.id then rec else list[i]
  {
    if list == [] then []
    else [if list[0].id == rec.id then rec else list[0]] + ReplaceId(list[1..], rec)
  }

  /** Deleting a key from the object drops exactly its record from the listing. */
  lemma {:induction false} RowsWithout(keys: seq<string>, db: map<string, Todo>, id: string)
    requires forall k :: k in keys ==> k in db
    ensures Rows(Without(keys, id), db - {id}) == DropId(Rows(keys, db), id)
  {
    if keys != [] {
      RowsWithout(keys[1..], db, id);
      var list := Rows(keys, db);
      assert list == [Merge(keys[0], db[keys[0]])] + Rows(keys[1..], db);
      assert list[1..] == Rows(keys[1..], db);
      if keys[0] != id {
        assert Without(keys, id) == [keys[0]] + Without(keys[1..], id);
        assert (db - {id})[keys[0]] == db[keys[0]];
      } else {
        assert Without(keys, id) == Without(keys[1..], id);
      }
    }
  }

  /** Appending a fresh key appends its record to the listing. */
  lemma RowsAppend(keys: seq<string>, db: map<string, Todo>, id: string, t: Todo)
    requires forall k :: k in keys ==> k in db
    requires id !in keys
    ensures forall k :: k in keys + [id] ==> k in db[id := t]
    ensures Rows(keys + [id], db[id := t]) == Rows(keys, db) + [Merge(id, t)]
  {
    var lhs := Rows(keys + [id], db[id := t]);
    var rhs := Rows(keys, db) + [Merge(id, t)];
    assert |lhs| == |rhs|;
    forall i | 0 <= i < |lhs| ensures lhs[i] == rhs[i] {
      if i < |keys| {
        assert (keys + [id])[i] == keys[i] && keys[i] != id;
      }
    }
  }

  /** Overwriting the body of a listed key replaces its record in place. */
  lemma RowsUpdate(keys: seq<string>, db: map<string, Todo>, id: string, t: Todo)
    requires forall k :: k in keys ==> k in db
    requires id in db
    ensures forall k :: k in keys ==> k in db[id := t]
    ensures Rows(keys, db[id := t]) == ReplaceId(Rows(keys, db), Merge(id, t))
  {
    var lhs := Rows(keys, db[id := t]);
    var rhs := ReplaceId(Rows(keys, db), Merge(id, t));
    forall i | 0 <= i < |keys| ensures lhs[i] == rhs[i] {
    }
  }

  /** A sequence without repetitions has as many elements as its set. */
  lemma {:induction false} DistinctCard(s: seq<string>)
    requires Distinct(s)
    ensures |set k | k in s| == |s|
  {
    if s != [] {
      assert Distinct(s[1..]);
      DistinctCard(s[1..]);
      assert (set k | k in s) == {s[0]} + (set k | k in s[1..]);
      assert s[0] !in (set k | k in s[1..]);
    }
  }

  // ---------------------------------------------------------------------
  // The store
  // ---------------------------------------------------------------------

  /** The bound `todosDB` object: `db` holds its properties and `keys`
      their order, which is the order in which they were first added. */
  class TodoStore {
    var db: map<string, Todo>
    var keys: seq<string>

    ghost predicate Valid()
      reads this
    {
      Distinct(keys) && (forall k :: k in keys <==> k in db)
    }

    /** A store bound to an empty object. */
    constructor ()
      ensures Valid() && db == map[] && keys == []
    {
      db := map[];
      keys := [];
    }

    /** The caller rebinds the store to a new object whose properties, in
        order, are `order`, with bodies from `table`. */
    method Bind(order: seq<string>, table: map<string, Todo>)
      requires Distinct(order) && forall k :: k in order <==> k in table
      modifies this
      ensures Valid() && db == table && keys == order
    {
      db := table;
      keys := order;
    }

    /** `row`: every record with its id merged in, in property order.
        Nothing can fail. */
    function Row(): (list: seq<Record>)
      reads this
      requires Valid()
      ensures |list| == |db|
      ensures forall i :: 0 <= i < |list| ==> list[i].id in db && db[list[i].id] == BodyOf(list[i])
      ensures forall i, j :: 0 <= i < j < |list| ==> list[i].id != list[j].id
      ensures forall k :: k in db ==> exists i :: 0 <= i < |list| && list[i].id == k
    {
      DistinctCard(keys);
      assert db.Keys == set k | k in keys;
      var list := Rows(keys, db);
      assert forall k :: k in db ==> exists i :: 0 <= i < |keys| && keys[i] == k;
      list
    }

    /** `get(id)`: the body stored under a string id, or absence with no
        error; an id of any other type is an `InvalidArgument` and gives
        no body. */
    function Get(id: Value): (r: Reply<Option<Todo>>)
      reads this
      ensures r.err.Some? <==> !id.Str?
      ensures r.err.Some? ==> r == Reply(Some(InvalidArgument), None)
      ensures r.value.Some? <==> id.Str? && id.s in db
      ensures r.value.Some? ==> r.value.value == db[id.s]
    {
      if !id.Str? then Reply(Some(InvalidArgument), None)
      else if id.s in db then Reply(None, Some(db[id.s]))
      else Reply(None, None)
    }

    /** `del(id)`: removes the entry of a string id and says whether there
        was one; a non-string id is an `InvalidArgument`, answers `false`
        and leaves the store as it was. */
    method Del(id: Value) returns (r: Reply<bool>)
      requires Valid()
      modifies this
      ensures Valid()
      ensures r.err.Some? <==> !id.Str?
      ensures r.err.Some? ==> r.err.value == InvalidArgument
      ensures r.value <==> id.Str? && id.s in old(db)
      ensures r.value ==> db == old(db) - {id.s} && keys == Without(old(keys), id.s)
      ensures !r.value ==> db == old(db) && keys == old(keys)
      ensures Row() == if r.value then DropId(old(Row()), id.s) else old(Row())
    {
      if !id.Str? {
        return Reply(Some(InvalidArgument), false);
      }
      if id.s !in db {
        return Reply(None, false);
      }
      RowsWithout(keys, db, id.s);
      db := db - {id.s};
      keys := Without(keys, id.s);
      return Reply(None, true);
    }

    /** `add(obj)`: when `obj` passes `add`'s rules, stores its body under
        `freshId`, the identifier the generator supplies. On a violation
        nothing changes. */
    method Add(o: JsObject, freshId: string) returns (err: Option<Error>)
      requires Valid()
      requires freshId !in db
      modifies this
      ensures Valid()
      ensures err.None? <==> CheckAdd(o).Accepted?
      ensures err.Some? ==> err.value == ValidationError(CheckAdd(o).violation)
      ensures err.Some? ==> db == old(db) && keys == old(keys)
      ensures err.None? ==> db == old(db)[freshId := CheckAdd(o).value] && keys == old(keys) + [freshId]
      ensures err.None? ==> Row() == old(Row()) + [Merge(freshId, CheckAdd(o).value)]
      ensures err.None? ==> Get(Str(freshId)) == Reply(None, Some(CheckAdd(o).value))
    {
      var checked := CheckAdd(o);
      if checked.Rejected? {
        return Some(ValidationError(checked.violation));
      }
      assert Distinct(keys + [freshId]);
      RowsAppend(keys, db, freshId, checked.value);
      db := db[freshId := checked.value];
      keys := keys + [freshId];
      return None;
    }

    /** `set(obj)`: when `obj` passes `set`'s rules and its id is stored,
        overwrites only the fields `obj` gives and answers `true`; an
        unknown id answers `false` with no error. On a violation the answer
        is `false` with the error. Only an update changes the store. */
    method Set(o: JsObject) returns (r: Reply<bool>)
      requires Valid()
      modifies this
      ensures Valid()
      ensures r.err.Some? <==> CheckSet(o).Rejected?
      ensures r.err.Some? ==> r.err.value == ValidationError(CheckSet(o).violation)
      ensures r.value <==> CheckSet(o).Accepted? && CheckSet(o).value.id in old(db)
      ensures keys == old(keys)
      ensures !r.value ==> db == old(db)
      ensures r.value ==>
                var p := CheckSet(o).value;
                db == old(db)[p.id := Apply(old(db)[p.id], p)]
      // `Rows(keys, db)` is what `Row()` lists
      ensures r.value ==>
                var p := CheckSet(o).value;
                Rows(keys, db) == ReplaceId(old(Rows(keys, db)), Merge(p.id, Apply(old(db)[p.id], p)))
    {
      var checked := CheckSet(o);
      if checked.Rejected? {
        return Reply(Some(ValidationError(checked.violation)), false);
      }
      var p := checked.value;
      if p.id !in db {
        return Reply(None, false);
      }
      var t := Apply(db[p.id], p);
      RowsUpdate(keys, db, p.id, t);
      db := db[p.id := t];
      return Reply(None, true);
    }
  }

  /** What `row` lists agrees with what `get` answers for each listed id. */
  lemma RowGetAgree(s: TodoStore)
    requires s.Valid()
    ensures forall r :: r in s.Row() ==> s.Get(Str(r.id)) == Reply(None, Some(BodyOf(r)))
  {
    var list := s.Row();
    forall r | r in list ensures s.Get(Str(r.id)) == Reply(None, Some(BodyOf(r))) {
      var i :| 0 <= i < |list| && list[i] == r;
    }
  }
}
