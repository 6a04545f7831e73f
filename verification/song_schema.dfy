/** The shared record shape and the request validators of the query service
    (server/src/schema.ts). */
module SongSchema {
  import opened Wrappers
  import opened Strings

  /** A JavaScript `Date`, as whole milliseconds since the Unix epoch. */
  type Timestamp = int

  /** One catalog entry, as the server returns it and the client displays it. */
  datatype Song = Song(id: int, name: string, audioUrl: string, createdAt: Timestamp)

  /* ---------------------------------------------------------------------- */
  /* URLs                                                                    */
  /* ---------------------------------------------------------------------- */

  predicate IsAsciiLetter(c: char) {
    'a' <= c <= 'z' || 'A' <= c <= 'Z'
  }

  predicate IsSchemeChar(c: char) {
    IsAsciiLetter(c) || '0' <= c <= '9' || c == '+' || c == '-' || c == '.'
  }

  /** The stand-in for the URL refinement on `audioUrl`: the string opens
      with a scheme (a letter, then letters, digits, '+', '-' or '.', as
      section 3.1 of RFC 3986 writes it) and a ':'. What follows the colon
      is not looked at. */
  predicate ValidUrl(u: string) {
    var n := IndexOf(u, ':');
    0 < n < |u| && IsAsciiLetter(u[0]) &&
    forall i :: 0 <= i < n ==> IsSchemeChar(u[i])
  }

  /** `u` is a scheme of `k` characters, then ':', then anything. */
  predicate SchemeThenColon(u: string, k: nat) {
    && 0 < k < |u| && u[k] == ':'
    && IsAsciiLetter(u[0])
    && forall i :: 0 <= i < k ==> IsSchemeChar(u[i])
  }

  /** The URL predicate accepts exactly the strings that split into a
      scheme, a colon and a remainder. A scheme holds no ':', so the split
      point is the first colon and cannot be chosen two ways. */
  lemma ValidUrlIsSchemeThenColon(u: string)
    ensures ValidUrl(u) <==> exists k: nat :: SchemeThenColon(u, k)
  {
    if ValidUrl(u) {
      assert SchemeThenColon(u, IndexOf(u, ':'));
    }
    if k: nat :| SchemeThenColon(u, k) {
      IndexOfFirst(u, ':', k);
    }
  }

  /** The stand-in next to the WHATWG URL parser. They part ways on
      "http://", which the stand-in accepts and the parser refuses for its
      empty host, and on " https://a", which the stand-in refuses and the
      parser accepts after stripping the space. They agree on "mailto:"
      (accepted) and on strings without a colon (`ColonlessRefused`). */
  lemma ValidUrlSamples()
    ensures ValidUrl("mailto:")
    ensures ValidUrl("http://")
    ensures !ValidUrl(" https://a")
  {
    SchemeOnlyAccepted("mailto");
    SchemeOnlyAccepted("http");
    assert "http" + "://" == "http://";
    assert "mailto" + ":" == "mailto:";
    assert " https://a"[0] == ' ';
  }

  /** Without a colon there is no scheme, so a bare file name such as
      "bell-ringing-05.wav" is refused, as the URL parser refuses it. */
  lemma ColonlessRefused(u: string)
    requires ':' !in u
    ensures !ValidUrl(u)
  {
  }

  /** A scheme and a colon pass, whatever comes after. */
  lemma SchemeOnlyAccepted(scheme: string)
    requires 0 < |scheme| && IsAsciiLetter(scheme[0])
    requires forall i :: 0 <= i < |scheme| ==> IsSchemeChar(scheme[i])
    ensures ValidUrl(scheme + ":")
    ensures ValidUrl(scheme + "://")
  {
    forall rest: string | rest in {":", "://"}
      ensures ValidUrl(scheme + rest)
    {
      var u := scheme + rest;
      assert u[|scheme|] == ':';
      forall i | 0 <= i < |scheme|
        ensures u[i] != ':' && IsSchemeChar(u[i])
      {
        assert u[i] == scheme[i];
      }
      IndexOfFirst(u, ':', |scheme|);
    }
  }

  /** A song whose fields satisfy the song record schema. */
  predicate ConformsToSongSchema(s: Song) {
    ValidUrl(s.audioUrl)
  }

  /* ---------------------------------------------------------------------- */
  /* Request payloads and their validation                                   */
  /* ---------------------------------------------------------------------- */

  /** A decoded request payload. JSON numbers are modelled as reals. */
  datatype Json =
    | JNull
    | JBool(b: bool)
    | JNumber(n: real)
    | JString(s: string)
    | JObject(fields: map<string, Json>)

  /** What the validator reports, one entry per failed check. */
  datatype Issue =
    | ExpectedObject
    | Required(key: string)
    | ExpectedNumber(key: string)
    | NotInteger
    | NotPositive

  /** An id the single-song query may be asked for. */
  type PositiveId = n: int | n > 0 witness 1

  /** The list query takes no fields. */
  datatype GetSongsInput = GetSongsInput

  datatype GetSongInput = GetSongInput(id: PositiveId)

  /** `Number.isInteger`, on the reals. */
  predicate IsInteger(x: real) {
    x == x.Floor as real
  }

  /** The list input is the empty object schema: any object passes and its
      keys are dropped; anything else is rejected. */
  function ParseGetSongsInput(j: Json): (r: Result<GetSongsInput, seq<Issue>>)
    ensures r.Success? <==> j.JObject?
    ensures r.Failure? ==> r.error == [ExpectedObject]
  {
    if j.JObject? then Success(GetSongsInput) else Failure([ExpectedObject])
  }

  /** The single-song input: an object whose `id` is a number, then an
      integer check and a strictly-positive check, both of which run and
      report independently. */
  function ParseGetSongInput(j: Json): (r: Result<GetSongInput, seq<Issue>>)
    ensures r.Success? <==>
      j.JObject? && "id" in j.fields && j.fields["id"].JNumber? &&
      IsInteger(j.fields["id"].n) && j.fields["id"].n > 0.0
    ensures r.Success? ==> r.value.id as real == j.fields["id"].n
    ensures r.Failure? ==> |r.error| > 0
  {
    if !j.JObject? then Failure([ExpectedObject])
    else if "id" !in j.fields then Failure([Required("id")])
    else match j.fields["id"]
      case JNumber(x) =>
        var issues := (if IsInteger(x) then [] else [NotInteger]) +
                      (if x > 0.0 then [] else [NotPositive]);
        if issues == [] then Success(GetSongInput(x.Floor)) else Failure(issues)
      case _ => Failure([ExpectedNumber("id")])
  }

  /** The payload `{ id: x }`. */
  function IdPayload(x: real): Json {
    JObject(map["id" := JNumber(x)])
  }

  /** Integer ids: exactly the positive ones pass, carrying the same value;
      zero and negative ones fail on positivity alone. */
  lemma AcceptsExactlyPositiveIntegers(n: int)
    ensures n > 0 ==> ParseGetSongInput(IdPayload(n as real)) == Success(GetSongInput(n))
    ensures n <= 0 ==> ParseGetSongInput(IdPayload(n as real)) == Failure([NotPositive])
  {
    var j := IdPayload(n as real);
    assert j.fields["id"] == JNumber(n as real);
    assert (n as real).Floor == n;
    assert [] + [NotPositive] == [NotPositive];
  }

  /** A number with a fractional part fails the integer check, and fails the
      positivity check as well when it is not above zero. */
  lemma RejectsNonInteger(x: real)
    requires !IsInteger(x)
    ensures x > 0.0 ==> ParseGetSongInput(IdPayload(x)) == Failure([NotInteger])
    ensures x <= 0.0 ==> ParseGetSongInput(IdPayload(x)) == Failure([NotInteger, NotPositive])
  {
    var j := IdPayload(x);
    assert j.fields["id"] == JNumber(x);
    assert [NotInteger] + [] == [NotInteger];
    assert [NotInteger] + [NotPositive] == [NotInteger, NotPositive];
  }

  /** A missing id, or one that is not a number, is rejected before any
      numeric check runs. */
  lemma RejectsMissingOrNonNumericId(j: Json)
    requires j.JObject?
    requires "id" !in j.fields || !j.fields["id"].JNumber?
    ensures "id" !in j.fields ==> ParseGetSongInput(j) == Failure([Required("id")])
    ensures "id" in j.fields ==> ParseGetSongInput(j) == Failure([ExpectedNumber("id")])
  {
  }
}
