/**
 * The parameter helpers of `HistoryDetailComponent`: how a record's parsed parameters are shown as
 * text, whether they have scalar entries worth listing, and that list.
 */
module HistoryDetail {
  import opened Wrappers
  import opened JsValues
  import opened Text
  import History

  const NoSpecificParameters := "No hay parámetros específicos para esta transformación"

  /** One row of the parameter table: a key and its value as `String(value)` writes it. */
  datatype ParameterDetail = ParameterDetail(key: string, value: string)

  /**
   * `formatParameters`: a falsy value or an object or array without keys gets the "no parameters"
   * message, a string is shown as it is, anything else goes through the serialiser `stringify`
   * (`JSON.stringify(v, null, 2)`; it cannot throw on these values, so its fallback is never used).
   */
  function FormatParameters(p: Json, stringify: Json -> string): (r: string)
    ensures IsFalsy(p) || History.HasNoKeys(p) ==> r == NoSpecificParameters
    ensures p.JString? && p.s != "" ==> r == p.s
    ensures !IsFalsy(p) && !History.HasNoKeys(p) && !p.JString? ==> r == stringify(p)
  {
    if IsFalsy(p) || History.HasNoKeys(p) then NoSpecificParameters
    else if p.JString? then p.s
    else stringify(p)
  }

  /** The entries of `entries` whose value is not of object type, in order, with their values as text. */
  function ScalarDetails(entries: seq<(string, Json)>): (r: seq<ParameterDetail>)
    ensures |r| <= |entries|
    ensures forall d :: d in r ==>
      exists i :: 0 <= i < |entries| && !IsObjectType(entries[i].1) && d == Detail(entries[i])
  {
    if entries == [] then []
    else
      var rest := ScalarDetails(entries[1..]);
      assert forall d :: d in rest ==>
        exists i :: 0 <= i < |entries| && !IsObjectType(entries[i].1) && d == Detail(entries[i]) by {
        forall d | d in rest
          ensures exists i :: 0 <= i < |entries| && !IsObjectType(entries[i].1) && d == Detail(entries[i])
        {
          var i :| 0 <= i < |entries[1..]| && !IsObjectType(entries[1..][i].1) && d == Detail(entries[1..][i]);
          assert entries[1..][i] == entries[i + 1];
        }
      }
      (if IsObjectType(entries[0].1) then [] else [Detail(entries[0])]) + rest
  }

  /** The row for one scalar entry. */
  function Detail(entry: (string, Json)): ParameterDetail
    requires !IsObjectType(entry.1)
  {
    ParameterDetail(entry.0, DisplayString(entry.1))
  }

  /** Some entry's value is not of object type. */
  predicate HasScalarEntry(entries: seq<(string, Json)>) {
    exists i :: 0 <= i < |entries| && !IsObjectType(entries[i].1)
  }

  /** `hasDetailedParameters`: an object or array with at least one key whose value is not an object. */
  predicate HasDetailedParameters(p: Json) {
    if IsFalsy(p) || !IsObjectType(p) then false
    else |Entries(p)| > 0 && HasScalarEntry(Entries(p))
  }

  /** `getParameterDetails`. */
  function GetParameterDetails(p: Json): seq<ParameterDetail> {
    if IsFalsy(p) || !IsObjectType(p) then [] else ScalarDetails(Entries(p))
  }

  /** The rows are not empty exactly when some entry is scalar. */
  lemma {:induction false} ScalarDetailsNonEmpty(entries: seq<(string, Json)>)
    ensures ScalarDetails(entries) != [] <==> HasScalarEntry(entries)
  {
    if entries != [] {
      ScalarDetailsNonEmpty(entries[1..]);
      if HasScalarEntry(entries) && IsObjectType(entries[0].1) {
        var i :| 0 <= i < |entries| && !IsObjectType(entries[i].1);
        assert entries[1..][i - 1] == entries[i];
      }
      if HasScalarEntry(entries[1..]) {
        var i :| 0 <= i < |entries[1..]| && !IsObjectType(entries[1..][i].1);
        assert entries[i + 1] == entries[1..][i];
      }
    }
  }

  /** The rows follow the entries' order: the filter distributes over concatenation. */
  lemma {:induction false} ScalarDetailsAppend(a: seq<(string, Json)>, b: seq<(string, Json)>)
    ensures ScalarDetails(a + b) == ScalarDetails(a) + ScalarDetails(b)
  {
    if a == [] {
      assert a + b == b;
    } else {
      assert (a + b)[0] == a[0];
      assert (a + b)[1..] == a[1..] + b;
      ScalarDetailsAppend(a[1..], b);
    }
  }

  /** Every scalar entry gets its row. */
  lemma {:induction false} ScalarEntryListed(entries: seq<(string, Json)>, i: nat)
    requires i < |entries| && !IsObjectType(entries[i].1)
    ensures Detail(entries[i]) in ScalarDetails(entries)
  {
    if i > 0 {
      assert entries[1..][i - 1] == entries[i];
      ScalarEntryListed(entries[1..], i - 1);
    }
  }

  /** The page shows the parameter table exactly when there are rows to put in it. */
  lemma DetailsConsistent(p: Json)
    ensures HasDetailedParameters(p) <==> GetParameterDetails(p) != []
  {
    if !IsFalsy(p) && IsObjectType(p) {
      ScalarDetailsNonEmpty(Entries(p));
    }
  }

  /**
   * The table of `getParameterDetails`: nothing for a value that is not an object or array; for one
   * that is, a row for each of its scalar entries and no row from anywhere else.
   */
  lemma ParameterDetailsListScalars(p: Json)
    ensures !(p.JArray? || p.JObject?) ==> GetParameterDetails(p) == [] && !HasDetailedParameters(p)
    ensures p.JArray? || p.JObject? ==>
      && (forall i :: 0 <= i < |Entries(p)| && !IsObjectType(Entries(p)[i].1) ==>
            Detail(Entries(p)[i]) in GetParameterDetails(p))
      && (forall d :: d in GetParameterDetails(p) ==>
            exists i :: 0 <= i < |Entries(p)| && !IsObjectType(Entries(p)[i].1) && d == Detail(Entries(p)[i]))
  {
    if p.JArray? || p.JObject? {
      forall i | 0 <= i < |Entries(p)| && !IsObjectType(Entries(p)[i].1)
        ensures Detail(Entries(p)[i]) in GetParameterDetails(p)
      {
        ScalarEntryListed(Entries(p), i);
      }
    }
  }

  /** A record with blank parameter text shows the service's placeholder and no table. */
  lemma BlankParametersShowPlaceholder(text: string, parse: string -> Option<Json>, stringify: Json -> string)
    requires Trim(text) == ""
    ensures FormatParameters(History.ParseParameters(text, parse), stringify) == History.NoParameters
    ensures GetParameterDetails(History.ParseParameters(text, parse)) == []
  {
  }

  /**
   * Text that parses to false, 0 or the empty string reaches the page as that falsy value, which the
   * page then reports as having no parameters at all.
   */
  lemma FalsyParsedShowsNoParameters(text: string, parse: string -> Option<Json>, stringify: Json -> string, v: Json)
    requires Trim(text) != "" && parse(text) == Some(v) && IsFalsy(v) && !v.JNull?
    ensures FormatParameters(History.ParseParameters(text, parse), stringify) == NoSpecificParameters
  {
    History.ParsedValueKept(text, parse, v);
  }

  /** Parsed parameters never reach the page as an empty object or array: the service replaced those. */
  lemma ParsedObjectsHaveKeys(text: string, parse: string -> Option<Json>)
    requires IsObjectType(History.ParseParameters(text, parse))
    ensures |Entries(History.ParseParameters(text, parse))| > 0
  {
  }
}
