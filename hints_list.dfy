/** The Hints list type's own JSON methods. Their names are misspelled
    (MarshallJSON, UnmarshallJSON), so encoding/json never calls them; they are
    modelled as written, standing alone. */
module HintList {
  import opened Wrappers
  import opened Text
  import opened Json
  import JsonHints

  /** What Hints.MarshallJSON writes for the list `hs`: "default" for no hints,
      the single hint as a bare string, otherwise the hints sorted into an array. */
  function EncodeHintList(hs: seq<string>): (v: Value)
    ensures v.String? <==> |hs| <= 1
    ensures v.Array? ==> |v.items| == |hs|
  {
    if |hs| == 0 then String("default")
    else if |hs| == 1 then String(hs[0])
    else Array(Strings(Sort(hs)))
  }

  /** sort.Strings: the contents are replaced by their sorted arrangement, in place. */
  method SortStrings(h: array<string>)
    modifies h
    ensures h[..] == Sort(old(h[..]))
  {
    var sorted := Sort(h[..]);
    forall i | 0 <= i < h.Length {
      h[i] := sorted[i];
    }
  }

  /** Hints.MarshallJSON. With two or more hints the receiver itself ends up sorted. */
  method MarshallJSON(h: array<string>) returns (v: Value)
    modifies h
    ensures v == EncodeHintList(old(h[..]))
    ensures h.Length < 2 ==> h[..] == old(h[..])
    ensures h.Length >= 2 ==> Sorted(h[..]) && multiset(h[..]) == multiset(old(h[..]))
  {
    if h.Length == 0 {
      return String("default");
    }
    if h.Length == 1 {
      return String(h[0]);
    }
    SortStrings(h);
    v := Array(Strings(h[..]));
  }

  /** Hints.UnmarshallJSON: the list becomes the one string, or the array's
      strings; any other value is rejected. */
  function UnmarshallJSON(v: Value): (r: Result<seq<string>>)
    ensures r.Ok? <==> v.String? || (v.Array? && forall i :: 0 <= i < |v.items| ==> v.items[i].String? || v.items[i].Null?)
    ensures v.String? ==> r == Ok([v.s])
    ensures v.Array? && r.Ok? ==> |r.value| == |v.items|
  {
    match v
    case String(s) => Ok([s])
    case Array(items) => StringsOf(items)
    case _ => Err(ExpectedStringOrList)
  }

  // ---------------------------------------------------------------------------

  /** Sorting twice changes nothing more. */
  lemma SortIdempotent(hs: seq<string>)
    ensures Sort(Sort(hs)) == Sort(hs)
  {
    SortedUnique(Sort(Sort(hs)), Sort(hs));
  }

  /** Reading back what MarshallJSON wrote gives the sorted hints, except that
      an empty list comes back as ["default"]. */
  lemma HintListRoundTrip(hs: seq<string>)
    ensures UnmarshallJSON(EncodeHintList(hs)) == Ok(if hs == [] then ["default"] else Sort(hs))
  {
    if |hs| == 1 {
      assert Sort(hs) == Insert(hs[0], Sort([])) == [hs[0]];
    } else if |hs| >= 2 {
      StringsOfStrings(Sort(hs));
    }
  }

  /** Writing is stable: the list read back writes the same JSON again. */
  lemma HintListStable(hs: seq<string>)
    ensures EncodeHintList(UnmarshallJSON(EncodeHintList(hs)).value) == EncodeHintList(hs)
  {
    HintListRoundTrip(hs);
    SortIdempotent(hs);
  }

  /** Where the rule decoder's hint reading succeeds, UnmarshallJSON reads the
      same list; it also accepts null elements, which the rule decoder rejects. */
  lemma AgreesWithRuleHints(v: Value)
    ensures JsonHints.HintsOfValue(v).Ok? ==> UnmarshallJSON(v) == JsonHints.HintsOfValue(v)
    ensures UnmarshallJSON(Array([Null])) == Ok([""]) && JsonHints.HintsOfValue(Array([Null])).Err?
  {
    if v.Array? && JsonHints.HintsOfValue(v).Ok? {
      StringItemsRead(v.items);
    }
    assert StringsOf([Null]).Ok?;
    assert StringsOf([Null]).value == [""];
    assert JsonHints.StringItems([Null]) == Err(ExpectedString);
  }

  lemma {:induction false} StringItemsRead(items: seq<Value>)
    requires JsonHints.StringItems(items).Ok?
    ensures StringsOf(items) == JsonHints.StringItems(items)
  {
    if items != [] {
      StringItemsRead(items[1..]);
    }
  }
}
