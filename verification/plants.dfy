/** The `Plant` record of `models/Plant.ts`: its wire mapping in both
    directions, the watering display text and the defaulting factory. */
module Plants {
  import opened Wrappers
  import opened Text

  /** A tracked houseplant as the client holds it. `image` is a data URI,
      `dayUntilWater` is `None` when no schedule is set. */
  datatype Plant = Plant(
    id: int,
    name: string,
    waterNeeded: int,
    isWatered: bool,
    image: Option<string>,
    dayUntilWater: Option<int>,
    adminLoginId: int)

  /** The nested owning-admin object of the wire format. */
  datatype WireAdmin = WireAdmin(id: Field<int>)

  /** A plant object as the API sends or receives it; every field may be
      missing or null. `image` carries the bare base64 payload. */
  datatype WirePlant = WirePlant(
    id: Field<int>,
    name: Field<string>,
    waterNeeded: Field<int>,
    isWatered: Field<bool>,
    image: Field<string>,
    dayUntilWater: Field<int>,
    adminLogin: Field<WireAdmin>)

  /** The empty JSON object `{}`. */
  const EmptyObject := WirePlant(Absent, Absent, Absent, Absent, Absent, Absent, Absent)

  /** The data URI header every decoded image payload is given. */
  const JpegPrefix: string := "data:image/jpeg;base64,"

  const NoScheduleText: string := "No watering schedule set"
  const DueTodayText: string := "Watering due today!"
  const TomorrowText: string := "Water tomorrow"

  /** The owning admin's id, read from the nested admin object: 0 when the
      object or its id is missing or null. */
  function AdminIdOf(admin: Field<WireAdmin>): (r: int)
    ensures admin.Present? && admin.value.id.Present? ==> r == admin.value.id.value
    ensures !(admin.Present? && admin.value.id.Present?) ==> r == 0
  {
    match admin
    case Present(a) => OrDefault(a.id, 0)
    case _ => 0
  }

  /** The client-side image for a received payload: a non-empty payload is
      given the jpeg data URI header; a missing, null or empty one means no
      image. */
  function WrapImage(payload: Field<string>): (r: Option<string>)
    ensures r.Some? <==> payload.Present? && payload.value != ""
    ensures r.Some? ==> r.value == JpegPrefix + payload.value
  {
    match payload
    case Present(p) => if p != "" then Some(JpegPrefix + p) else None
    case _ => None
  }

  /** `Plant.fromApiResponse`: decodes a wire object without ever failing;
      each missing field takes its default. */
  function FromApiResponse(w: WirePlant): (r: Plant)
    ensures !w.id.Present? ==> r.id == 0
    ensures !w.name.Present? ==> r.name == ""
    ensures !w.waterNeeded.Present? ==> r.waterNeeded == 0
    ensures !w.isWatered.Present? ==> !r.isWatered
    ensures w.adminLogin.Present? && w.adminLogin.value.id.Present?
        ==> r.adminLoginId == w.adminLogin.value.id.value
    ensures !(w.adminLogin.Present? && w.adminLogin.value.id.Present?) ==> r.adminLoginId == 0
    ensures w.id.Present? ==> r.id == w.id.value
    ensures w.name.Present? ==> r.name == w.name.value
    ensures w.waterNeeded.Present? ==> r.waterNeeded == w.waterNeeded.value
    ensures w.isWatered.Present? ==> r.isWatered == w.isWatered.value
    ensures r.dayUntilWater.Some? <==> w.dayUntilWater.Present?
    ensures r.dayUntilWater.Some? ==> r.dayUntilWater.value == w.dayUntilWater.value
    ensures r.image.Some? <==> w.image.Present? && w.image.value != ""
    ensures r.image.Some? ==> r.image.value == JpegPrefix + w.image.value
  {
    Plant(
      OrDefault(w.id, 0),
      OrDefault(w.name, ""),
      OrDefault(w.waterNeeded, 0),
      OrDefault(w.isWatered, false),
      WrapImage(w.image),
      Nullable(w.dayUntilWater),
      AdminIdOf(w.adminLogin))
  }

  /** The payload sent for a client-side image: the piece between the first
      and the second comma, or null when there is no image, no comma, or the
      piece is empty. */
  function StripImagePrefix(image: Option<string>): (r: Field<string>)
    ensures r != Absent
    ensures image.None? ==> r == Null
    ensures r.Present? ==> r.value != "" && ',' !in r.value
  {
    match image
    case None => Null
    case Some(s) =>
      var parts := Split(s, ',');
      if |parts| >= 2 && parts[1] != "" then Present(parts[1]) else Null
  }

  /** A data URI without a comma has no payload to send. */
  lemma StripWithoutComma(s: string)
    requires ',' !in s
    ensures StripImagePrefix(Some(s)) == Null
  {
    SplitWithoutSeparator(s, ',');
  }

  /** Every string that has a comma reads as `header + "," + payload + tail`
      with a comma-free header and payload and a tail that is empty or starts
      at the second comma; the payload is what is sent, unless empty. With
      `StripWithoutComma` this covers every image string. */
  lemma StripDecomposed(header: string, payload: string, tail: string)
    requires ',' !in header && ',' !in payload
    requires tail == "" || tail[0] == ','
    ensures StripImagePrefix(Some(header + "," + payload + tail))
         == (if payload == "" then Null else Present(payload))
  {
    var s := header + "," + payload + tail;
    var rest := payload + tail;
    assert s == header + [','] + rest;
    SplitAtFirst(header, ',', rest);
    FirstPiece(payload, tail);
    var parts := Split(s, ',');
    assert parts == [header] + Split(rest, ',');
    assert parts[1] == Split(rest, ',')[0] == payload;
  }

  /** The first piece of `payload + tail` is `payload` when the tail is
      empty or starts with a comma. */
  lemma FirstPiece(payload: string, tail: string)
    requires ',' !in payload
    requires tail == "" || tail[0] == ','
    ensures Split(payload + tail, ',')[0] == payload
  {
    if tail == "" {
      assert payload + tail == payload;
      SplitWithoutSeparator(payload, ',');
    } else {
      assert payload + tail == payload + [','] + tail[1..];
      SplitAtFirst(payload, ',', tail[1..]);
    }
  }

  /** `plant.toApiRequest()`: the wire object sent to the API. Every field
      is present; image and dayUntilWater may be null; the admin id is
      nested in an object of its own. */
  function ToApiRequest(p: Plant): (w: WirePlant)
    ensures w.id == Present(p.id) && w.name == Present(p.name)
    ensures w.waterNeeded == Present(p.waterNeeded) && w.isWatered == Present(p.isWatered)
    ensures w.dayUntilWater == (if p.dayUntilWater.Some? then Present(p.dayUntilWater.value) else Null)
    ensures w.adminLogin == Present(WireAdmin(Present(p.adminLoginId)))
    ensures w.image == StripImagePrefix(p.image)
    ensures p.image.None? ==> w.image == Null
    ensures w.image != Absent
    ensures w.image.Present? ==> w.image.value != "" && ',' !in w.image.value
  {
    WirePlant(
      Present(p.id),
      Present(p.name),
      Present(p.waterNeeded),
      Present(p.isWatered),
      StripImagePrefix(p.image),
      match p.dayUntilWater
      case Some(d) => Present(d)
      case None => Null,
      Present(WireAdmin(Present(p.adminLoginId))))
  }

  /** Encoding then decoding keeps every field except the image; the image
      comes back as the sent payload under the jpeg header, or as null. */
  lemma RoundTripFields(p: Plant)
    ensures FromApiResponse(ToApiRequest(p)).(image := p.image) == p
    ensures FromApiResponse(ToApiRequest(p)).image
         == match StripImagePrefix(p.image)
            case Present(payload) => Some(JpegPrefix + payload)
            case _ => None
  {
  }

  /** A plant without an image survives the wire unchanged. */
  lemma RoundTripNoImage(p: Plant)
    requires p.image.None?
    ensures FromApiResponse(ToApiRequest(p)) == p
  {
    RoundTripFields(p);
  }

  /** Any single-header data URI comes back with the same payload, relabelled
      as jpeg. */
  lemma RoundTripRelabels(p: Plant, header: string, payload: string)
    requires ',' !in header && ',' !in payload && payload != ""
    requires p.image == Some(header + "," + payload)
    ensures FromApiResponse(ToApiRequest(p)) == p.(image := Some(JpegPrefix + payload))
  {
    assert header + "," + payload + "" == header + "," + payload;
    StripDecomposed(header, payload, "");
    RoundTripFields(p);
  }

  /** A jpeg data URI with a comma-free, non-empty payload survives the wire
      unchanged. */
  lemma RoundTripJpeg(p: Plant, payload: string)
    requires ',' !in payload && payload != ""
    requires p.image == Some(JpegPrefix + payload)
    ensures FromApiResponse(ToApiRequest(p)) == p
  {
    assert JpegPrefix == "data:image/jpeg;base64" + ",";
    RoundTripRelabels(p, "data:image/jpeg;base64", payload);
  }

  /** A png data URI comes back labelled as jpeg, so it is not the plant
      that was sent. */
  lemma PngComesBackAsJpeg(p: Plant, payload: string)
    requires ',' !in payload && payload != ""
    requires p.image == Some("data:image/png;base64," + payload)
    ensures FromApiResponse(ToApiRequest(p)).image == Some(JpegPrefix + payload)
    ensures FromApiResponse(ToApiRequest(p)) != p
  {
    var header := "data:image/png;base64";
    assert p.image.value == header + "," + payload;
    RoundTripRelabels(p, header, payload);
    assert (JpegPrefix + payload)[11] != p.image.value[11];
  }

  /** What comes back from the wire is a fixed point of the round trip. */
  lemma RoundTripIdempotent(p: Plant)
    ensures FromApiResponse(ToApiRequest(FromApiResponse(ToApiRequest(p))))
         == FromApiResponse(ToApiRequest(p))
  {
    var q := FromApiResponse(ToApiRequest(p));
    RoundTripFields(p);
    if q.image.None? {
      RoundTripNoImage(q);
    } else {
      var payload := ToApiRequest(p).image.value;
      RoundTripJpeg(q, payload);
    }
  }

  /** The `wateringDueText` getter. */
  function WateringDueText(dayUntilWater: Option<int>): (text: string)
    ensures text == NoScheduleText <==> dayUntilWater.None?
    ensures text == DueTodayText <==> dayUntilWater.Some? && dayUntilWater.value <= 0
    ensures text == TomorrowText <==> dayUntilWater == Some(1)
    ensures dayUntilWater.Some? && dayUntilWater.value > 1
        ==> text == "Water in " + IntToString(dayUntilWater.value) + " days"
  {
    match dayUntilWater
    case None => NoScheduleText
    case Some(d) =>
      if d <= 0 then DueTodayText
      else if d == 1 then TomorrowText
      else
        var t := "Water in " + IntToString(d) + " days";
        assert t[6] == 'i';
        assert t[..9] == "Water in ";
        t
  }

  /** Apart from the values at or below zero, which all read "due today",
      the display text determines the day count. */
  lemma WateringDueTextInjective(a: int, b: int)
    requires a > 0 || b > 0
    requires WateringDueText(Some(a)) == WateringDueText(Some(b))
    ensures a == b
  {
    if a > 1 && b > 1 {
      PrefixedIntInjective("Water in ", a, b, " days");
    }
  }

  /** `Plant.createNew`: an unsaved plant owned by the given admin. */
  function CreateNew(adminLoginId: int): (p: Plant)
    ensures p.id == 0 && p.name == "" && p.waterNeeded == 0 && !p.isWatered
    ensures p.image.None? && p.dayUntilWater.None?
    ensures p.adminLoginId == adminLoginId
    ensures WateringDueText(p.dayUntilWater) == NoScheduleText
  {
    Plant(0, "", 0, false, None, None, adminLoginId)
  }

  /** Decoding `{}` gives the same plant as `createNew(0)`, and decoding an
      object that names only its admin gives `createNew` of that admin. */
  lemma DecodeDefaultsAreCreateNew(a: int)
    ensures FromApiResponse(EmptyObject) == CreateNew(0)
    ensures FromApiResponse(EmptyObject.(adminLogin := Present(WireAdmin(Present(a)))))
         == CreateNew(a)
  {
  }
}
