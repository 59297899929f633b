/** The `/meta/subscribe` response of the Bayeux protocol and the normalisation
    of its loosely typed `subscription` field into a list of channel names. */
module Subscribe {
  import opened Wrappers

  /** A JSON document as it arrives on the wire. */
  datatype Json =
    | JNull
    | JBool(b: bool)
    | JNumber(n: int)
    | JString(s: string)
    | JArray(elems: seq<Json>)
    | JObject(members: map<string, Json>)

  /** The value held by a Go `interface{}`, tagged by its dynamic type. */
  datatype Dynamic =
    | Nil                                   // untyped nil
    | Bool(b: bool)                         // bool
    | Number(n: int)                        // float64; only its presence matters here
    | Str(s: string)                        // string
    | StrSlice(items: seq<string>)          // []string
    | AnySlice(elems: seq<Dynamic>)         // []interface{}
    | AnyMap(fields: map<string, Dynamic>)  // map[string]interface{}

  /** The dynamic value that decoding JSON into an `interface{}` produces: an
      array always becomes a `[]interface{}`, never a `[]string`. */
  function FromJson(j: Json): (d: Dynamic)
    ensures j.JArray? <==> d.AnySlice?
    ensures !d.StrSlice?
    ensures j.JString? ==> d == Str(j.s)
  {
    match j
    case JNull => Nil
    case JBool(b) => Bool(b)
    case JNumber(n) => Number(n)
    case JString(s) => Str(s)
    case JArray(elems) => AnySlice(seq(|elems|, i requires 0 <= i < |elems| => FromJson(elems[i])))
    case JObject(members) => AnyMap(map k | k in members :: FromJson(members[k]))
  }

  /** A JSON array whose elements are the given strings, in order. */
  function JsonStrings(names: seq<string>): (j: Json)
    ensures j.JArray? && |j.elems| == |names|
  {
    JArray(seq(|names|, i requires 0 <= i < |names| => JString(names[i])))
  }

  /** The fields of a subscribe response. The `advice` and `ext` objects are
      declared in files that are not part of this model. */
  datatype SubscribeResponse = SubscribeResponse(
    channel: string,
    successful: bool,
    subscription: Dynamic,
    error: string,
    clientId: string,
    id: string)

  /** The value the normalisation gives up on. The source panics instead,
      with an error whose message formats this value. */
  datatype SubscriptionError = UnexpectedSubscriptions(data: Dynamic)

  /** True when `name` is a channel name carried by the subscription value
      itself, at the top level. */
  predicate Carries(d: Dynamic, name: string)
  {
    (d.Str? && d.s == name) || (d.StrSlice? && name in d.items)
  }

  /** The subscribed channels as the source computes them: a single string
      becomes a one-element list, a `[]string` is passed through, and every
      other dynamic type is rejected. The source panics in the last case, with
      an error whose message formats the value; here it is a `Failure`
      carrying the value itself. */
  function GetSubscriptions(s: SubscribeResponse): (r: Result<seq<string>, SubscriptionError>)
    ensures r.Success? <==> s.subscription.Str? || s.subscription.StrSlice?
    ensures r.Success? ==> forall name :: name in r.value ==> Carries(s.subscription, name)
    ensures r.Success? ==> forall name :: Carries(s.subscription, name) ==> name in r.value
    ensures s.subscription.Str? ==> r.Success? && |r.value| == 1
    ensures s.subscription.StrSlice? ==> r.Success? && |r.value| == |s.subscription.items|
    ensures r.Success? && r.value == [] ==> s.subscription == StrSlice([])
    ensures r.Failure? ==> r.error == UnexpectedSubscriptions(s.subscription)
  {
    match s.subscription
    case Str(name) => Success([name])
    case StrSlice(names) => Success(names)
    case _ => Failure(UnexpectedSubscriptions(s.subscription))
  }

  /** A single-string value yields exactly that one channel. */
  lemma SingleSubscription(s: SubscribeResponse, name: string)
    requires s.subscription == Str(name)
    ensures GetSubscriptions(s) == Success([name])
  {
  }

  /** A `[]string` value is returned as it is: same order, duplicates kept. */
  lemma TypedListUnchanged(s: SubscribeResponse, names: seq<string>)
    requires s.subscription == StrSlice(names)
    ensures GetSubscriptions(s) == Success(names)
    ensures forall i :: 0 <= i < |names| ==> GetSubscriptions(s).value[i] == names[i]
  {
  }

  /** Whatever a decoded JSON subscription field is, its list form is
      rejected: the `[]string` case cannot arise from decoding, so even a
      list of strings (or an empty list) reaches the panic. */
  lemma DecodedListRejected(s: SubscribeResponse, names: seq<string>)
    requires s.subscription == FromJson(JsonStrings(names))
    ensures GetSubscriptions(s) == Failure(UnexpectedSubscriptions(s.subscription))
  {
  }

  /** The typed list `["x"]` and the single string `"x"` normalise alike. */
  lemma SingleAndTypedListAgree(s: SubscribeResponse, t: SubscribeResponse, name: string)
    requires s.subscription == Str(name) && t.subscription == StrSlice([name])
    ensures GetSubscriptions(s) == GetSubscriptions(t)
  {
  }

  // ---------------------------------------------------------------------------
  // Corrected normalisation: a generic list whose elements are all strings is
  // what decoding a JSON list of channel names produces, so it is accepted.

  /** The strings held by a generic list, or `None` if some element is not a
      string. */
  function StringElements(elems: seq<Dynamic>): (r: Option<seq<string>>)
    ensures r.Some? <==> forall i :: 0 <= i < |elems| ==> elems[i].Str?
    ensures r.Some? ==> |r.value| == |elems|
    ensures r.Some? ==> forall i :: 0 <= i < |elems| ==> r.value[i] == elems[i].s
  {
    if elems == [] then Some([])
    else if !elems[0].Str? then None
    else
      match StringElements(elems[1..])
      case None => None
      case Some(rest) => Some([elems[0].s] + rest)
  }

  /** The subscribed channels, accepting the string, `[]string` and
      all-strings `[]interface{}` shapes, and reporting every other shape as
      a typed error instead of a panic. */
  function NormalizeSubscriptions(s: SubscribeResponse): (r: Result<seq<string>, SubscriptionError>)
    ensures GetSubscriptions(s).Success? ==> r == GetSubscriptions(s)
    ensures r.Failure? ==> r.error == UnexpectedSubscriptions(s.subscription)
    ensures s.subscription.AnySlice? ==>
      (r.Success? <==> forall i :: 0 <= i < |s.subscription.elems| ==> s.subscription.elems[i].Str?)
    ensures s.subscription.AnySlice? && r.Success? ==>
      |r.value| == |s.subscription.elems| &&
      forall i :: 0 <= i < |r.value| ==> s.subscription.elems[i] == Str(r.value[i])
    ensures !(s.subscription.Str? || s.subscription.StrSlice? || s.subscription.AnySlice?) ==>
      r == Failure(UnexpectedSubscriptions(s.subscription))
  {
    match s.subscription
    case Str(name) => Success([name])
    case StrSlice(names) => Success(names)
    case AnySlice(elems) =>
      (match StringElements(elems)
       case Some(names) => Success(names)
       case None => Failure(UnexpectedSubscriptions(s.subscription)))
    case _ => Failure(UnexpectedSubscriptions(s.subscription))
  }

  /** A decoded JSON list of channel names normalises to exactly those names,
      in order. */
  lemma {:induction false} DecodedListAccepted(s: SubscribeResponse, names: seq<string>)
    requires s.subscription == FromJson(JsonStrings(names))
    ensures NormalizeSubscriptions(s) == Success(names)
  {
    var elems := s.subscription.elems;
    assert |elems| == |names|;
    forall i | 0 <= i < |elems|
      ensures elems[i] == Str(names[i])
    {
      assert JsonStrings(names).elems[i] == JString(names[i]);
    }
    var r := StringElements(elems);
    assert r.Some?;
    assert r.value == names;
  }

  /** A decoded JSON string and a decoded one-element JSON list normalise to
      the same channel list. */
  lemma {:induction false} DecodedShapesAgree(s: SubscribeResponse, t: SubscribeResponse, name: string)
    requires s.subscription == FromJson(JString(name))
    requires t.subscription == FromJson(JsonStrings([name]))
    ensures NormalizeSubscriptions(s) == NormalizeSubscriptions(t) == Success([name])
  {
    DecodedListAccepted(t, [name]);
  }
}
