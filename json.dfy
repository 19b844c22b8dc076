/** JSON at two levels: parsed values, and the token stream json.Decoder.Token yields
    for them (commas and colons are never seen; numbers, booleans and null are all
    one kind of scalar token). */
module Json {
  import opened Wrappers
  import opened Text

  datatype Token = ObjOpen | ObjClose | ArrOpen | ArrClose | Str(s: string) | Scalar

  /** A JSON value; only integral numbers are represented. Object members keep
      their order, and a key may repeat. */
  datatype Value =
    | Null
    | Bool(b: bool)
    | Number(n: int)
    | String(s: string)
    | Array(items: seq<Value>)
    | Object(members: seq<Member>)

  datatype Member = Member(key: string, value: Value)

  /** The tokens json.Decoder.Token returns, in order, when reading `v`. */
  function Tokens(v: Value): (ts: seq<Token>)
    decreases v, 1
    ensures |ts| > 0
  {
    match v
    case Null | Bool(_) | Number(_) => [Scalar]
    case String(s) => [Str(s)]
    case Array(items) => [ArrOpen] + ItemsTokens(items) + [ArrClose]
    case Object(ms) => [ObjOpen] + MembersTokens(ms) + [ObjClose]
  }

  function ItemsTokens(items: seq<Value>): seq<Token>
    decreases items, 0
  {
    if items == [] then [] else Tokens(items[0]) + ItemsTokens(items[1..])
  }

  function MembersTokens(ms: seq<Member>): seq<Token>
    decreases ms, 0
  {
    if ms == [] then [] else [Str(ms[0].key)] + Tokens(ms[0].value) + MembersTokens(ms[1..])
  }

  /** The keys of an object's members, in order. */
  function Keys(ms: seq<Member>): (ks: seq<string>)
    ensures |ks| == |ms| && forall i :: 0 <= i < |ms| ==> ks[i] == ms[i].key
  {
    seq(|ms|, i requires 0 <= i < |ms| => ms[i].key)
  }

  /** A list of strings as JSON string values. */
  function Strings(xs: seq<string>): (vs: seq<Value>)
    ensures |vs| == |xs|
    ensures forall i :: 0 <= i < |xs| ==> vs[i] == String(xs[i])
  {
    seq(|xs|, i requires 0 <= i < |xs| => String(xs[i]))
  }

  /** json.Unmarshal into a []string: strings are kept, a null element stays the
      empty string, anything else is a type error. */
  function StringsOf(items: seq<Value>): (r: Result<seq<string>>)
    ensures r.Ok? <==> forall i :: 0 <= i < |items| ==> items[i].String? || items[i].Null?
    ensures r.Ok? ==> |r.value| == |items|
    ensures r.Ok? ==> forall i :: 0 <= i < |items| ==> r.value[i] == (if items[i].String? then items[i].s else "")
  {
    if items == [] then Ok([])
    else if !(items[0].String? || items[0].Null?) then Err(TypeMismatch)
    else
      match StringsOf(items[1..])
      case Err(e) => Err(e)
      case Ok(rest) =>
        var first := if items[0].String? then items[0].s else "";
        assert forall i :: 0 < i < |items| ==> items[i] == items[1..][i - 1];
        Ok([first] + rest)
  }

  /** Strings written by Strings read back as themselves. */
  lemma StringsOfStrings(hs: seq<string>)
    ensures StringsOf(Strings(hs)) == Ok(hs)
  {
    var r := StringsOf(Strings(hs));
    assert r.Ok?;
    assert r.value == hs;
  }

  /** How encoding/json decodes an object into a struct: the members are stored
      in order, each by `store`, into the struct as left by the ones before it
      (so a later member overrides an earlier one), and the first error stops
      the decoding. */
  function StoreMembers<S>(ms: seq<Member>, s: S, store: (Member, S) -> Result<S>): Result<S>
  {
    if ms == [] then Ok(s)
    else
      var t :- store(ms[0], s);
      StoreMembers(ms[1..], t, store)
  }

  /** Storing `a + b` is storing `a`, then `b` into the result. */
  lemma {:induction false} StoreAppend<S>(a: seq<Member>, b: seq<Member>, s: S, store: (Member, S) -> Result<S>)
    ensures StoreMembers(a + b, s, store)
         == match StoreMembers(a, s, store) case Ok(t) => StoreMembers(b, t, store) case Err(e) => Err(e)
  {
    if a == [] {
      assert a + b == b;
    } else {
      assert (a + b)[1..] == a[1..] + b;
      match store(a[0], s) {
        case Ok(t) => StoreAppend(a[1..], b, t, store);
        case Err(_) =>
      }
    }
  }

  /** Storing a member and then the rest. */
  lemma StoreCons<S>(m: Member, rest: seq<Member>, s: S, store: (Member, S) -> Result<S>)
    ensures store(m, s).Ok? ==> StoreMembers([m] + rest, s, store) == StoreMembers(rest, store(m, s).value, store)
    ensures store(m, s).Err? ==> StoreMembers([m] + rest, s, store) == Err(store(m, s).error)
  {
    assert ([m] + rest)[1..] == rest;
  }

  /** Storing two members that both succeed. */
  lemma StorePair<S>(m0: Member, m1: Member, s: S, t: S, u: S, store: (Member, S) -> Result<S>)
    requires store(m0, s) == Ok(t) && store(m1, t) == Ok(u)
    ensures StoreMembers([m0, m1], s, store) == Ok(u)
  {
    StoreCons(m0, [m1], s, store);
    StoreCons(m1, [], t, store);
    assert [m0] + [m1] == [m0, m1];
    assert [m1] + [] == [m1];
  }

  /** Appending at most one member to members already stored. */
  lemma StorePiece<S>(ms: seq<Member>, piece: seq<Member>, s: S, t: S, u: S, store: (Member, S) -> Result<S>)
    requires StoreMembers(ms, s, store) == Ok(t)
    requires |piece| <= 1
    requires piece == [] ==> u == t
    requires |piece| == 1 ==> store(piece[0], t) == Ok(u)
    ensures StoreMembers(ms + piece, s, store) == Ok(u)
  {
    StoreAppend(ms, piece, s, store);
    if |piece| == 1 {
      assert piece[1..] == [];
    }
  }

  /** The pull decoder: a cursor over the token stream of one input. */
  class Decoder {
    const tokens: seq<Token>
    var pos: nat

    ghost predicate Valid()
      reads this
    {
      pos <= |tokens|
    }

    constructor (tokens: seq<Token>)
      ensures this.tokens == tokens && pos == 0 && Valid()
    {
      this.tokens := tokens;
      pos := 0;
    }

    /** json.Decoder.Token: the next token, or io.EOF once the input is used up. */
    method NextToken() returns (r: Result<Token>)
      requires Valid()
      modifies this
      ensures Valid()
      ensures old(pos) < |tokens| ==> r == Ok(tokens[old(pos)]) && pos == old(pos) + 1
      ensures old(pos) == |tokens| ==> r == Err(EndOfInput) && pos == old(pos)
    {
      if pos < |tokens| {
        r := Ok(tokens[pos]);
        pos := pos + 1;
      } else {
        r := Err(EndOfInput);
      }
    }
  }
}
