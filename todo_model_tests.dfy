/** The test scenarios of the todo store replayed against the model: each
    method below follows one case, rebinding the store where the case
    rebinds `todosDB`, and asserts what the case expects. */
module TodoModelScenarios {

  import opened JsValues
  import opened TodoModel

  /** `row` lists nothing for an empty object, and the body with its id
      merged in for a one-entry object. */
  method RowListsAllTodos()
  {
    var s := new TodoStore();
    assert s.Row() == [];
    s.Bind(["someId"], map["someId" := Todo("testval", false)]);
    assert s.Row() == [Record("someId", "testval", false)];
  }

  /** `get` rejects `undefined` and `1`, finds a stored id and reports a
      missing one as absent without error. */
  method GetCases()
  {
    var s := new TodoStore();
    assert s.Get(Undefined) == Reply(Some(InvalidArgument), None);
    assert s.Get(Num(1)) == Reply(Some(InvalidArgument), None);
    assert s.Get(Str("someId")) == Reply(None, None);
    s.Bind(["someId"], map["someId" := Todo("testval", false)]);
    assert s.Get(Str("someId")) == Reply(None, Some(Todo("testval", false)));
  }

  /** `del` rejects non-string ids with `false`, deletes a stored id and
      answers `false` for a missing one, leaving the other entry alone. */
  method DelCases()
  {
    var s := new TodoStore();
    var r := s.Del(Undefined);
    assert r.err.Some? && !r.value;
    r := s.Del(Num(1));
    assert r.err.Some? && !r.value;

    s.Bind(["someId"], map["someId" := Todo("testval", false)]);
    r := s.Del(Str("someId"));
    assert r == Reply(None, true);
    assert s.db == map[];

    s.Bind(["otherId"], map["otherId" := Todo("testval", false)]);
    r := s.Del(Str("someId"));
    assert r == Reply(None, false);
    assert s.db == map["otherId" := Todo("testval", false)];
  }

  /** `add` rejects `{test: true}`, `{content: 888}` and `{}` and stores
      nothing; it stores `{content: 'test'}` as not done and keeps a
      supplied `done: true`. */
  method AddCases(id1: string, id2: string)
  {
    var s := new TodoStore();
    var err := s.Add(map["test" := Bool(true)], id1);
    assert err == Some(ValidationError(Missing("content"))) && s.db == map[];
    err := s.Add(map["content" := Num(888)], id1);
    assert err == Some(ValidationError(WrongType("content"))) && s.db == map[];
    err := s.Add(map[], id1);
    assert err.Some? && s.db == map[];

    err := s.Add(map["content" := Str("test")], id1);
    assert err.None? && s.keys == [id1];
    assert s.db[s.keys[0]] == Todo("test", false);

    s.Bind([], map[]);
    err := s.Add(map["done" := Bool(true), "content" := Str("test2")], id2);
    assert err.None? && s.keys == [id2];
    assert s.db[s.keys[0]] == Todo("test2", true);
  }

  /** `set` rejects `{done: true}`, `{id: 888}` and `{}` with `false` and
      changes nothing. */
  method SetRejectsInvalid()
  {
    var s := new TodoStore();
    s.Bind(["someId"], map["someId" := Todo("testval", false)]);
    var r := s.Set(map["done" := Bool(true)]);
    assert r == Reply(Some(ValidationError(Missing("id"))), false);
    assert s.db == map["someId" := Todo("testval", false)];
    r := s.Set(map["id" := Num(888)]);
    assert r == Reply(Some(ValidationError(WrongType("id"))), false);
    assert s.db == map["someId" := Todo("testval", false)];
    r := s.Set(map[]);
    assert r.err.Some? && !r.value;
    assert s.db == map["someId" := Todo("testval", false)];
  }

  /** `set` changes `content` and keeps `done`, then changes `done` and
      keeps the new `content`. */
  method SetUpdatesGivenFields()
  {
    var s := new TodoStore();
    s.Bind(["someId"], map["someId" := Todo("testval", false)]);
    var newContent := map["id" := Str("someId"), "content" := Str("valtest")];
    assert CheckSet(newContent) == Accepted(Patch("someId", Some("valtest"), None));
    var r := s.Set(newContent);
    assert r == Reply(None, true);
    assert s.db == map["someId" := Todo("valtest", false)];
    var newDone := map["id" := Str("someId"), "done" := Bool(true)];
    assert CheckSet(newDone) == Accepted(Patch("someId", None, Some(true)));
    r := s.Set(newDone);
    assert r == Reply(None, true);
    assert s.db == map["someId" := Todo("valtest", true)];
  }

  /** `set` on an unknown id answers `false` without error and changes nothing. */
  method SetUnknownId()
  {
    var s := new TodoStore();
    s.Bind(["otherId"], map["otherId" := Todo("test", true)]);
    var r :=
      s.Set(map["id" := Str("someId"), "done" := Bool(true), "content" := Str("valtest")]);
    assert r == Reply(None, false);
    assert s.db == map["otherId" := Todo("test", true)];
  }

  /** Deleting the same stored id twice answers `true`, then `false`. */
  method DelTwice(s: TodoStore, id: string) returns (first: bool, second: bool)
    requires s.Valid() && id in s.db
    modifies s
    ensures first && !second
    ensures s.db == old(s.db) - {id}
  {
    var r := s.Del(Str(id));
    first := r.value;
    r := s.Del(Str(id));
    second := r.value;
  }

  /** A record that was added is listed by `row` and found by `get`. */
  method AddThenList(s: TodoStore, o: JsObject, freshId: string) returns (err: Option<Error>)
    requires s.Valid() && freshId !in s.db
    modifies s
    ensures s.Valid()
    ensures err.None? <==> CheckAdd(o).Accepted?
    ensures err.None? ==> Merge(freshId, CheckAdd(o).value) in s.Row()
    ensures err.None? ==> s.Get(Str(freshId)).value == Some(CheckAdd(o).value)
  {
    err := s.Add(o, freshId);
    if err.None? {
      assert s.Row()[|s.Row()| - 1] == Merge(freshId, CheckAdd(o).value);
    }
  }
}
