/**
 * The list operations the transform page performs on a selection of transformations: toggling one,
 * removing one, and writing or reading one of its parameters. The page applies the same operations to
 * the batch selection and to the list of the image being configured in individual mode.
 */
module TransformSelection {
  import opened Wrappers
  import opened JsValues
  import opened ImageModel

  /** The transformation count, output format included, must stay below this to add another one. */
  const SlotLimit := 5

  /** The filters the page offers; they carry no parameters. */
  const BasicTransformations: seq<Transformation> := [
    Transformation("grayscale", "Escala de grises", Filter, None),
    Transformation("flip", "Voltear horizontalmente", Filter, None),
    Transformation("flop", "Voltear verticalmente", Filter, None),
    Transformation("sharpen", "Aumentar nitidez", Filter, None)
  ]

  /** The adjustments the page offers, each with its one parameter at its starting value. */
  const AdjustmentTransformations: seq<Transformation> := [
    Transformation("brightness", "Ajustar brillo", Adjustment, Some(map["value" := JNumber(0)])),
    Transformation("contrast", "Ajustar contraste", Adjustment, Some(map["value" := JNumber(0)])),
    Transformation("blur", "Desenfocar", Adjustment, Some(map["radius" := JNumber(0)])),
    Transformation("rotate", "Rotar", Adjustment, Some(map["degrees" := JNumber(0)])),
    Transformation("watermark", "Marca de agua/texto", Adjustment, Some(map["text" := JString("")]))
  ]

  /** `list.some(t => t.id === id)`. */
  predicate HasTransformation(ts: seq<Transformation>, id: string) {
    exists i :: 0 <= i < |ts| && ts[i].id == id
  }

  /** No id occurs twice. */
  predicate UniqueIds(ts: seq<Transformation>) {
    forall i, j :: 0 <= i < j < |ts| ==> ts[i].id != ts[j].id
  }

  /** The count shown to the user: the transformations plus one for the output format. */
  function SlotsUsed(ts: seq<Transformation>): nat {
    |ts| + 1
  }

  /** `canAddMoreTransformations`. */
  predicate CanAdd(ts: seq<Transformation>) {
    SlotsUsed(ts) < SlotLimit
  }

  /** The selections the page can build: distinct ids and at most four besides the output format. */
  predicate WithinBudget(ts: seq<Transformation>) {
    UniqueIds(ts) && SlotsUsed(ts) <= SlotLimit
  }

  /** `list.filter(t => t.id !== id)`. */
  function WithoutId(ts: seq<Transformation>, id: string): (r: seq<Transformation>)
    ensures forall t :: t in r <==> t in ts && t.id != id
    ensures forall i :: 0 <= i < |r| ==> r[i].id != id
    ensures !HasTransformation(ts, id) ==> r == ts
    ensures HasTransformation(ts, id) ==> |r| < |ts|
    ensures |r| <= |ts|
  {
    if ts == [] then []
    else if ts[0].id == id then WithoutId(ts[1..], id)
    else
      assert HasTransformation(ts, id) ==> HasTransformation(ts[1..], id) by {
        if HasTransformation(ts, id) {
          var i :| 0 <= i < |ts| && ts[i].id == id;
          assert ts[1..][i - 1].id == id;
        }
      }
      [ts[0]] + WithoutId(ts[1..], id)
  }

  /** Filtering distributes over concatenation. */
  lemma {:induction false} WithoutIdAppend(a: seq<Transformation>, b: seq<Transformation>, id: string)
    ensures WithoutId(a + b, id) == WithoutId(a, id) + WithoutId(b, id)
  {
    if a == [] {
      assert a + b == b;
    } else {
      assert (a + b)[0] == a[0];
      assert (a + b)[1..] == a[1..] + b;
      WithoutIdAppend(a[1..], b, id);
    }
  }

  /** Filtering keeps ids distinct. */
  lemma {:induction false} WithoutIdUnique(ts: seq<Transformation>, id: string)
    ensures UniqueIds(ts) ==> UniqueIds(WithoutId(ts, id))
  {
    if ts != [] && UniqueIds(ts) {
      var rest := ts[1..];
      assert UniqueIds(rest) by {
        forall i, j | 0 <= i < j < |rest| ensures rest[i].id != rest[j].id {
          assert rest[i] == ts[i + 1] && rest[j] == ts[j + 1];
        }
      }
      WithoutIdUnique(rest, id);
      if ts[0].id != id {
        var r := WithoutId(ts, id);
        var tail := WithoutId(rest, id);
        assert r == [ts[0]] + tail;
        forall j | 0 < j < |r| ensures r[0].id != r[j].id {
          assert r[j] == tail[j - 1];
          assert tail[j - 1] in rest;
          var m :| 0 <= m < |rest| && rest[m] == tail[j - 1];
          assert rest[m] == ts[m + 1];
        }
      }
    }
  }

  /**
   * `toggleBatchTransformation` / `toggleIndividualTransformation` on the list: a selected id is
   * removed; an unselected one is appended at the end while there is room, and ignored otherwise.
   * The entries with other ids keep their contents and their order, and a selection within budget
   * stays within budget.
   */
  function Toggled(ts: seq<Transformation>, t: Transformation): (r: seq<Transformation>)
    ensures HasTransformation(r, t.id) <==> !HasTransformation(ts, t.id) && CanAdd(ts)
    ensures forall x :: x != t.id ==> (HasTransformation(r, x) <==> HasTransformation(ts, x))
    ensures WithoutId(r, t.id) == WithoutId(ts, t.id)
    ensures !HasTransformation(ts, t.id) && CanAdd(ts) ==> |r| == |ts| + 1 && r[|ts|] == t
    ensures !HasTransformation(ts, t.id) && !CanAdd(ts) ==> r == ts
    ensures WithinBudget(ts) ==> WithinBudget(r)
  {
    if HasTransformation(ts, t.id) then
      RemovedFacts(ts, t.id);
      WithoutId(ts, t.id)
    else if CanAdd(ts) then
      AppendedFacts(ts, t);
      ts + [t]
    else
      ts
  }

  /** What removing a selected id does: it is gone, the rest is kept, and the budget holds. */
  lemma RemovedFacts(ts: seq<Transformation>, id: string)
    requires HasTransformation(ts, id)
    ensures !HasTransformation(WithoutId(ts, id), id)
    ensures forall x :: x != id ==> (HasTransformation(WithoutId(ts, id), x) <==> HasTransformation(ts, x))
    ensures WithoutId(WithoutId(ts, id), id) == WithoutId(ts, id)
    ensures WithinBudget(ts) ==> WithinBudget(WithoutId(ts, id))
  {
    WithoutIdKeepsOthers(ts, id);
    WithoutIdUnique(ts, id);
    WithoutIdTwice(ts, id);
  }

  /** Filtering out the appended id gives back the filtered list it was appended to. */
  lemma AppendedFilter(ts: seq<Transformation>, t: Transformation)
    requires !HasTransformation(ts, t.id)
    ensures WithoutId(ts + [t], t.id) == WithoutId(ts, t.id)
  {
    WithoutIdAppend(ts, [t], t.id);
    assert WithoutId([t], t.id) == WithoutId([], t.id);
  }

  /** What appending an unselected transformation does: it is present, the rest is kept, and the budget holds. */
  lemma AppendedFacts(ts: seq<Transformation>, t: Transformation)
    requires !HasTransformation(ts, t.id) && CanAdd(ts)
    ensures HasTransformation(ts + [t], t.id)
    ensures forall x :: x != t.id ==> (HasTransformation(ts + [t], x) <==> HasTransformation(ts, x))
    ensures WithoutId(ts + [t], t.id) == WithoutId(ts, t.id)
    ensures WithinBudget(ts) ==> WithinBudget(ts + [t])
  {
    AppendedFilter(ts, t);
    var r := ts + [t];
    assert r[|ts|].id == t.id;
    forall x | x != t.id ensures HasTransformation(r, x) <==> HasTransformation(ts, x) {
      if HasTransformation(ts, x) {
        var i :| 0 <= i < |ts| && ts[i].id == x;
        assert r[i].id == x;
      }
      if HasTransformation(r, x) {
        var i :| 0 <= i < |r| && r[i].id == x;
        assert i < |ts| && ts[i].id == x;
      }
    }
    if WithinBudget(ts) {
      forall i, j | 0 <= i < j < |r| ensures r[i].id != r[j].id {
        if j == |ts| {
          assert r[i] == ts[i];
        } else {
          assert r[i] == ts[i] && r[j] == ts[j];
        }
      }
    }
  }

  /** Filtering twice by the same id removes nothing more. */
  lemma WithoutIdTwice(ts: seq<Transformation>, id: string)
    ensures WithoutId(WithoutId(ts, id), id) == WithoutId(ts, id)
  {
    var once := WithoutId(ts, id);
    assert !HasTransformation(once, id);
  }

  /** Removing one id keeps every other id's membership. */
  lemma WithoutIdKeepsOthers(ts: seq<Transformation>, id: string)
    ensures forall x :: x != id ==> (HasTransformation(WithoutId(ts, id), x) <==> HasTransformation(ts, x))
  {
    var r := WithoutId(ts, id);
    forall x | x != id
      ensures HasTransformation(r, x) <==> HasTransformation(ts, x)
    {
      if HasTransformation(r, x) {
        var i :| 0 <= i < |r| && r[i].id == x;
        assert r[i] in ts;
      }
      if HasTransformation(ts, x) {
        var i :| 0 <= i < |ts| && ts[i].id == x;
        assert ts[i] in r;
      }
    }
  }

  /** Toggling an unselected transformation twice, when there was room for it, restores the list. */
  lemma ToggleTwiceRestores(ts: seq<Transformation>, t: Transformation)
    requires !HasTransformation(ts, t.id) && CanAdd(ts)
    ensures Toggled(Toggled(ts, t), t) == ts
  {
    assert (ts + [t])[|ts|].id == t.id;
    WithoutIdAppend(ts, [t], t.id);
    assert WithoutId([t], t.id) == WithoutId([], t.id);
  }

  /**
   * Toggling a selected transformation twice moves it to the end of the list: the second toggle
   * always finds room because the first freed a slot.
   */
  lemma ToggleTwiceMovesToEnd(ts: seq<Transformation>, t: Transformation)
    requires WithinBudget(ts) && HasTransformation(ts, t.id)
    ensures Toggled(Toggled(ts, t), t) == WithoutId(ts, t.id) + [t]
  {
    var once := WithoutId(ts, t.id);
    assert !HasTransformation(once, t.id);
    assert CanAdd(once);
  }

  /** `i` is the first position holding the id. */
  predicate FirstWithId(ts: seq<Transformation>, id: string, i: int) {
    0 <= i < |ts| && ts[i].id == id && forall j :: 0 <= j < i ==> ts[j].id != id
  }

  /** `list.find(t => t.id === id)`: the first transformation with that id. */
  function FindById(ts: seq<Transformation>, id: string): (r: Option<Transformation>)
    ensures r.Some? <==> HasTransformation(ts, id)
    ensures r.Some? ==> exists i :: FirstWithId(ts, id, i) && ts[i] == r.value
  {
    if ts == [] then None
    else if ts[0].id == id then Some(ts[0])
    else
      var r := FindById(ts[1..], id);
      assert HasTransformation(ts, id) ==> HasTransformation(ts[1..], id) by {
        if HasTransformation(ts, id) {
          var i :| 0 <= i < |ts| && ts[i].id == id;
          assert ts[1..][i - 1].id == id;
        }
      }
      assert r.Some? ==> HasTransformation(ts, id) && exists i :: FirstWithId(ts, id, i) && ts[i] == r.value by {
        if r.Some? {
          var i :| FirstWithId(ts[1..], id, i) && ts[1..][i] == r.value;
          assert ts[i + 1] == r.value;
          forall j | 0 <= j < i + 1 ensures ts[j].id != id {
            if j > 0 { assert ts[j] == ts[1..][j - 1]; }
          }
          assert FirstWithId(ts, id, i + 1);
        }
      }
      r
  }

  /** `t.parameters?.[name]`. */
  function ParamOf(t: Transformation, name: string): Option<Json> {
    if t.parameters.Some? && name in t.parameters.value then Some(t.parameters.value[name]) else None
  }

  /** `getParam` on a list: the named parameter of the first transformation with that id. */
  function GetParam(ts: seq<Transformation>, id: string, name: string): Option<Json> {
    match FindById(ts, id)
    case None => None
    case Some(t) => ParamOf(t, name)
  }

  /** `{ ...t, parameters: { ...t.parameters, [name]: value } }`. */
  function SetParam(t: Transformation, name: string, value: Json): (r: Transformation)
    ensures ParamOf(r, name) == Some(value)
    ensures forall other :: other != name ==> ParamOf(r, other) == ParamOf(t, other)
    ensures r.id == t.id && r.name == t.name && r.kind == t.kind
  {
    t.(parameters := Some(t.parameters.GetOr(map[])[name := value]))
  }

  /** `updateParam` on a list: every transformation with that id gets the new parameter value. */
  function WithParam(ts: seq<Transformation>, id: string, name: string, value: Json): (r: seq<Transformation>)
    ensures |r| == |ts|
    ensures forall i :: 0 <= i < |ts| ==> r[i].id == ts[i].id && r[i].name == ts[i].name && r[i].kind == ts[i].kind
    ensures forall i :: 0 <= i < |ts| && ts[i].id != id ==> r[i] == ts[i]
  {
    if ts == [] then []
    else [if ts[0].id == id then SetParam(ts[0], name, value) else ts[0]] + WithParam(ts[1..], id, name, value)
  }

  /** Without the id in the list, writing a parameter changes nothing. */
  lemma WithParamAbsent(ts: seq<Transformation>, id: string, name: string, value: Json)
    requires !HasTransformation(ts, id)
    ensures WithParam(ts, id, name, value) == ts
  {
    var r := WithParam(ts, id, name, value);
    assert forall i :: 0 <= i < |ts| ==> r[i] == ts[i];
  }

  /** Writing a parameter keeps the ids, hence the selection and its budget. */
  lemma WithParamKeepsSelection(ts: seq<Transformation>, id: string, name: string, value: Json)
    ensures forall x :: HasTransformation(WithParam(ts, id, name, value), x) <==> HasTransformation(ts, x)
    ensures WithinBudget(ts) ==> WithinBudget(WithParam(ts, id, name, value))
  {
    var r := WithParam(ts, id, name, value);
    forall x ensures HasTransformation(r, x) <==> HasTransformation(ts, x) {
      if HasTransformation(r, x) {
        var i :| 0 <= i < |r| && r[i].id == x;
        assert ts[i].id == x;
      }
      if HasTransformation(ts, x) {
        var i :| 0 <= i < |ts| && ts[i].id == x;
        assert r[i].id == x;
      }
    }
  }

  /** One step of `WithParam`: the head is rewritten or kept, the tail is processed the same way. */
  lemma WithParamUnfold(ts: seq<Transformation>, id: string, name: string, value: Json)
    requires ts != []
    ensures WithParam(ts, id, name, value)[0] == if ts[0].id == id then SetParam(ts[0], name, value) else ts[0]
    ensures WithParam(ts, id, name, value)[1..] == WithParam(ts[1..], id, name, value)
  {
  }

  /** One step of `FindById`: a matching head is found, otherwise the search goes on in the tail. */
  lemma FindByIdUnfold(ts: seq<Transformation>, id: string)
    requires ts != []
    ensures ts[0].id == id ==> FindById(ts, id) == Some(ts[0])
    ensures ts[0].id != id ==> FindById(ts, id) == FindById(ts[1..], id)
  {
  }

  /** One step of `GetParam`: a matching head answers, otherwise the tail does. */
  lemma GetParamUnfold(ts: seq<Transformation>, id: string, name: string)
    requires ts != []
    ensures GetParam(ts, id, name) == if ts[0].id == id then ParamOf(ts[0], name) else GetParam(ts[1..], id, name)
  {
    FindByIdUnfold(ts, id);
  }

  /** A parameter written to a selected transformation reads back as written. */
  lemma {:induction false} ParamReadBack(ts: seq<Transformation>, id: string, name: string, value: Json)
    requires HasTransformation(ts, id)
    ensures GetParam(WithParam(ts, id, name, value), id, name) == Some(value)
  {
    var r := WithParam(ts, id, name, value);
    WithParamUnfold(ts, id, name, value);
    GetParamUnfold(r, id, name);
    if ts[0].id != id {
      var i :| 0 <= i < |ts| && ts[i].id == id;
      assert ts[1..][i - 1].id == id;
      ParamReadBack(ts[1..], id, name, value);
    }
  }

  /** Writing one parameter leaves every other parameter of every transformation as it was. */
  lemma {:induction false} ParamOthersKept(ts: seq<Transformation>, id: string, name: string, value: Json,
                                           x: string, other: string)
    requires x != id || other != name
    ensures GetParam(WithParam(ts, id, name, value), x, other) == GetParam(ts, x, other)
  {
    if ts != [] {
      var r := WithParam(ts, id, name, value);
      assert r[1..] == WithParam(ts[1..], id, name, value);
      ParamOthersKept(ts[1..], id, name, value, x, other);
    }
  }

  /** The catalogue offers each id once, so toggling one entry never touches another. */
  lemma CatalogueIdsDistinct()
    ensures UniqueIds(BasicTransformations + AdjustmentTransformations)
  {
  }

  /** `list.map(t => t.name)`. */
  function Names(ts: seq<Transformation>): (r: seq<string>)
    ensures |r| == |ts|
    ensures forall i :: 0 <= i < |ts| ==> r[i] == ts[i].name
  {
    if ts == [] then [] else [ts[0].name] + Names(ts[1..])
  }
}
