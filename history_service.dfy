/**
 * `HistoryService`: fetches the user's transformation history, enriches each record with a formatted
 * date and its parsed parameters, fetches one record, deletes records, and remembers a selection.
 */
module History {
  import opened Wrappers
  import opened Http
  import opened JsValues
  import opened Text

  const NoParameters := "Sin parámetros"
  const DefaultConfiguration := "Configuración predeterminada"
  const ListError := "Error al cargar el historial"
  const DetailError := "Error al cargar los detalles del historial"
  const DeleteError := "Error al eliminar del historial"

  /** `TransformationHistory`; the two optional fields are the ones the service adds. */
  datatype HistoryRecord = HistoryRecord(
    idTransformacion: int,
    idImagen: int,
    tipo: string,
    parametros: string,
    orden: int,
    fechaCreacion: string,
    fechaFormateada: Option<string>,
    parametrosParsed: Option<Json>)

  /** `HistoryResponse`; the message is only used in the text of an error the service then discards. */
  datatype ListBody = ListBody(success: bool, data: seq<HistoryRecord>)

  /** The body of the detail request. */
  datatype DetailBody = DetailBody(success: bool, data: Option<HistoryRecord>)

  /** The body of the delete request. */
  datatype DeleteBody = DeleteBody(success: bool)

  // ---------------------------------------------------------------------------------------------
  // Parameters
  // ---------------------------------------------------------------------------------------------

  /** `typeof v === 'object' && Object.keys(v).length === 0` for a value that is not null. */
  predicate HasNoKeys(v: Json) {
    (v.JArray? || v.JObject?) && Entries(v) == []
  }

  /**
   * `parseParameters`: blank text becomes a placeholder; text the parser `parse` rejects is shown as
   * it is, and so is text that parses to null (taking the keys of null throws, and the same handler
   * catches it); an object or array without keys becomes the "default" placeholder; anything else is
   * the parsed value. The result is never null nor an empty object or array, and it is always the
   * text, one of the two placeholders, or what the parser produced.
   */
  function ParseParameters(text: string, parse: string -> Option<Json>): (r: Json)
    ensures !r.JNull? && !HasNoKeys(r)
    ensures r == JString(text) || r == JString(NoParameters) || r == JString(DefaultConfiguration)
      || parse(text) == Some(r)
    ensures Trim(text) == "" ==> r == JString(NoParameters)
    ensures Trim(text) != "" && parse(text).Some? && HasNoKeys(parse(text).value) ==> r == JString(DefaultConfiguration)
  {
    if text == "" || Trim(text) == "" then JString(NoParameters)
    else match parse(text)
      case None => JString(text)
      case Some(v) =>
        if v.JNull? then JString(text)
        else if HasNoKeys(v) then JString(DefaultConfiguration)
        else v
  }

  /** Text that parses to a value with something in it comes back as that value. */
  lemma ParsedValueKept(text: string, parse: string -> Option<Json>, v: Json)
    requires Trim(text) != "" && parse(text) == Some(v)
    requires !v.JNull? && !HasNoKeys(v)
    ensures ParseParameters(text, parse) == v
  {
    assert text != "";
  }

  /** Non-blank text comes back unchanged exactly when the parser rejects it or reads null. */
  lemma UnparsedTextKept(text: string, parse: string -> Option<Json>)
    requires Trim(text) != "" && (parse(text).None? || parse(text) == Some(JNull))
    ensures ParseParameters(text, parse) == JString(text)
  {
    assert text != "";
  }

  // ---------------------------------------------------------------------------------------------
  // Records
  // ---------------------------------------------------------------------------------------------

  /** The record with `fecha_formateada` and `parametros_parsed` added. */
  function Enrich(item: HistoryRecord, formatDate: string -> string, parse: string -> Option<Json>)
    : (r: HistoryRecord)
    ensures r.(fechaFormateada := item.fechaFormateada, parametrosParsed := item.parametrosParsed) == item
    ensures r.fechaFormateada == Some(formatDate(item.fechaCreacion))
    ensures r.parametrosParsed == Some(ParseParameters(item.parametros, parse))
  {
    item.(fechaFormateada := Some(formatDate(item.fechaCreacion)),
          parametrosParsed := Some(ParseParameters(item.parametros, parse)))
  }

  /** `data.map(...)`: every record enriched, same order and count. */
  function EnrichAll(items: seq<HistoryRecord>, formatDate: string -> string, parse: string -> Option<Json>)
    : (r: seq<HistoryRecord>)
    ensures |r| == |items|
    ensures forall i :: 0 <= i < |items| ==> r[i] == Enrich(items[i], formatDate, parse)
  {
    seq(|items|, i requires 0 <= i < |items| => Enrich(items[i], formatDate, parse))
  }

  /** `historyList().filter(item => item.id_transformacion !== id)`. */
  function WithoutRecord(records: seq<HistoryRecord>, id: int): (r: seq<HistoryRecord>)
    ensures |r| <= |records|
    ensures forall i :: 0 <= i < |r| ==> r[i].idTransformacion != id
  {
    if records == [] then []
    else (if records[0].idTransformacion != id then [records[0]] else []) + WithoutRecord(records[1..], id)
  }

  /** The filter keeps exactly the records with another id. */
  lemma {:induction false} WithoutRecordMembers(records: seq<HistoryRecord>, id: int)
    ensures forall x :: x in WithoutRecord(records, id) <==> x in records && x.idTransformacion != id
  {
    if records != [] {
      WithoutRecordMembers(records[1..], id);
      assert records == [records[0]] + records[1..];
    }
  }

  /** The filter keeps the surviving records in their order: it distributes over concatenation. */
  lemma {:induction false} WithoutRecordAppend(a: seq<HistoryRecord>, b: seq<HistoryRecord>, id: int)
    ensures WithoutRecord(a + b, id) == WithoutRecord(a, id) + WithoutRecord(b, id)
  {
    if a == [] {
      assert a + b == b;
    } else {
      var keep := if a[0].idTransformacion != id then [a[0]] else [];
      WithoutRecordAppend(a[1..], b, id);
      calc {
        WithoutRecord(a + b, id);
        { assert (a + b)[0] == a[0] && (a + b)[1..] == a[1..] + b; }
        keep + WithoutRecord(a[1..] + b, id);
        keep + (WithoutRecord(a[1..], id) + WithoutRecord(b, id));
        (keep + WithoutRecord(a[1..], id)) + WithoutRecord(b, id);
        WithoutRecord(a, id) + WithoutRecord(b, id);
      }
    }
  }

  /** Deleting the same id twice removes nothing more. */
  lemma {:induction false} WithoutRecordIdempotent(records: seq<HistoryRecord>, id: int)
    ensures WithoutRecord(WithoutRecord(records, id), id) == WithoutRecord(records, id)
  {
    if records != [] {
      var rest := WithoutRecord(records[1..], id);
      WithoutRecordIdempotent(records[1..], id);
      assert WithoutRecord(rest, id) == rest;
      if records[0].idTransformacion != id {
        var once := [records[0]] + rest;
        assert WithoutRecord(records, id) == once;
        assert once[0] == records[0] && once[1..] == rest;
        assert WithoutRecord(once, id) == [records[0]] + WithoutRecord(rest, id);
      } else {
        assert WithoutRecord(records, id) == rest;
      }
    }
  }

  /** A list without the id is left as it is. */
  lemma {:induction false} WithoutAbsentRecord(records: seq<HistoryRecord>, id: int)
    requires forall i :: 0 <= i < |records| ==> records[i].idTransformacion != id
    ensures WithoutRecord(records, id) == records
  {
    if records != [] {
      assert records == [records[0]] + records[1..];
      WithoutAbsentRecord(records[1..], id);
    }
  }

  /** `getHistory` succeeds: a body arrived, says success, and has a first record to log. */
  predicate ListSucceeds(response: Response<ListBody>) {
    response.Delivered? && response.body.Some? && response.body.value.success && |response.body.value.data| > 0
  }

  /** `getHistoryDetail` succeeds: a body arrived, says success, and carries the record. */
  predicate DetailSucceeds(response: Response<DetailBody>) {
    response.Delivered? && response.body.Some? && response.body.value.success && response.body.value.data.Some?
  }

  /** `deleteHistory` succeeds: a body arrived and says success. */
  predicate DeleteSucceeds(response: Response<DeleteBody>) {
    response.Delivered? && response.body.Some? && response.body.value.success
  }

  // ---------------------------------------------------------------------------------------------
  // The service
  // ---------------------------------------------------------------------------------------------

  class HistoryService {
    var isLoading: bool
    var errorMessage: string
    var historyList: seq<HistoryRecord>
    var selectedHistory: Option<HistoryRecord>

    constructor ()
      ensures !isLoading && errorMessage == "" && historyList == [] && selectedHistory == None
    {
      isLoading := false;
      errorMessage := "";
      historyList := [];
      selectedHistory := None;
    }

    /**
     * `getHistory`: on success the list is replaced by the enriched records, in order, and returned;
     * on any failure (including a successful but empty answer, whose first record is dereferenced)
     * the list is kept, the error is set and nothing is returned. Loading ends in both cases.
     */
    method GetHistory(response: Response<ListBody>, formatDate: string -> string, parse: string -> Option<Json>)
      returns (history: seq<HistoryRecord>)
      modifies this`isLoading, this`errorMessage, this`historyList
      ensures !isLoading
      ensures ListSucceeds(response) ==>
        && history == EnrichAll(response.body.value.data, formatDate, parse)
        && historyList == history && errorMessage == ""
      ensures !ListSucceeds(response) ==>
        history == [] && historyList == old(historyList) && errorMessage == ListError
    {
      isLoading := true;
      errorMessage := "";
      if ListSucceeds(response) {
        history := EnrichAll(response.body.value.data, formatDate, parse);
        historyList := history;
      } else {
        errorMessage := ListError;
        history := [];
      }
      isLoading := false;
    }

    /**
     * `getHistoryDetail`: the enriched record on success; otherwise nothing, with the error set. The
     * list and the selection are not touched, and loading ends in both cases.
     */
    method GetHistoryDetail(response: Response<DetailBody>, formatDate: string -> string,
                            parse: string -> Option<Json>)
      returns (detail: Option<HistoryRecord>)
      modifies this`isLoading, this`errorMessage
      ensures !isLoading
      ensures DetailSucceeds(response) ==>
        detail == Some(Enrich(response.body.value.data.value, formatDate, parse)) && errorMessage == ""
      ensures !DetailSucceeds(response) ==> detail == None && errorMessage == DetailError
    {
      isLoading := true;
      errorMessage := "";
      if DetailSucceeds(response) {
        detail := Some(Enrich(response.body.value.data.value, formatDate, parse));
      } else {
        errorMessage := DetailError;
        detail := None;
      }
      isLoading := false;
    }

    /**
     * `deleteHistory`: on success every record with the id is dropped, the rest keep their order;
     * on failure the list is kept and the error is set. The loading flag is never touched and an
     * earlier error is not cleared.
     */
    method DeleteHistory(id: int, response: Response<DeleteBody>) returns (ok: bool)
      modifies this`historyList, this`errorMessage
      ensures ok == DeleteSucceeds(response)
      ensures ok ==> historyList == WithoutRecord(old(historyList), id) && errorMessage == old(errorMessage)
      ensures !ok ==> historyList == old(historyList) && errorMessage == DeleteError
    {
      if DeleteSucceeds(response) {
        historyList := WithoutRecord(historyList, id);
        ok := true;
      } else {
        errorMessage := DeleteError;
        ok := false;
      }
    }

    method SelectHistory(item: HistoryRecord)
      modifies this`selectedHistory
      ensures selectedHistory == Some(item)
    {
      selectedHistory := Some(item);
    }

    method ClearSelection()
      modifies this`selectedHistory
      ensures selectedHistory == None
    {
      selectedHistory := None;
    }

    /** `reset`: list, selection and error cleared; the loading flag is left alone. */
    method Reset()
      modifies this`historyList, this`selectedHistory, this`errorMessage
      ensures historyList == [] && selectedHistory == None && errorMessage == ""
    {
      historyList := [];
      selectedHistory := None;
      errorMessage := "";
    }
  }
}
