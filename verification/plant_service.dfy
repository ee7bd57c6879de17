/** `models/PlantService.ts` with `fetch` abstracted away: each operation is
    a request description built from its arguments, and an interpretation of
    whatever the transport delivered for that request. */
module PlantService {
  import opened Wrappers
  import opened Text
  import opened Plants

  /** Base URL used on android and ios devices. */
  const LanBaseUrl: string := "http://192.168.1.139:8080"
  /** Base URL used on web and every other platform. */
  const LocalBaseUrl: string := "http://localhost:8080"

  /** `getApiBaseUrl`, as a function of `Platform.OS`. */
  function ApiBaseUrl(os: string): (url: string)
    ensures url == LanBaseUrl <==> os == "android" || os == "ios"
    ensures url == LocalBaseUrl <==> os != "android" && os != "ios"
  {
    if os == "android" then LanBaseUrl
    else if os == "ios" then LanBaseUrl
    else
      assert LanBaseUrl[7] != LocalBaseUrl[7];
      LocalBaseUrl
  }

  datatype HttpMethod = Get | Post | Put | Delete

  /** A JSON request body. */
  datatype Body =
    | PlantBody(plant: WirePlant)
      /** `{ isWatered }`; an undefined flag is dropped by `JSON.stringify`. */
    | WateringBody(isWatered: Option<bool>)

  datatype Request = Request(verb: HttpMethod, url: string, body: Option<Body>)

  /** A response whose body has been read as JSON of type `B`. */
  datatype Response<B> = Response(ok: bool, status: int, body: B)

  /** What `fetch` delivered: a response, or a rejection (network failure,
      unreadable body). */
  datatype Exchange<B> = Answered(response: Response<B>) | TransportFailed(reason: string)

  /** The error a service call throws: the one it raises for a non-ok status,
      or a transport error it rethrows unchanged. */
  datatype ServiceError = ApiError(status: int) | Rethrown(reason: string)

  /** The message the thrown error carries: the status after a fixed
      prefix, or the transport's own reason. */
  function Message(e: ServiceError): (m: string)
    ensures e.ApiError? ==> m == "API error: " + IntToString(e.status)
    ensures e.ApiError? ==> m[..11] == "API error: " && m[11..] == IntToString(e.status)
    ensures e.Rethrown? ==> m == e.reason
  {
    match e
    case ApiError(status) => "API error: " + IntToString(status)
    case Rethrown(reason) => reason
  }

  /** Distinct statuses give distinct API error messages. */
  lemma ApiErrorMessageInjective(a: int, b: int)
    requires Message(ApiError(a)) == Message(ApiError(b))
    ensures a == b
  {
    PrefixedIntInjective("API error: ", a, b, "");
  }

  /** URL of one plant: the platform's base, the items path, then the id in
      decimal. */
  function ItemUrl(os: string, plantId: int): (url: string)
    ensures url == ApiBaseUrl(os) + "/items/" + IntToString(plantId)
    ensures |url| > |ApiBaseUrl(os) + "/items/"|
    ensures url[..|ApiBaseUrl(os) + "/items/"|] == ApiBaseUrl(os) + "/items/"
    ensures url[|ApiBaseUrl(os) + "/items/"|..] == IntToString(plantId)
  {
    ApiBaseUrl(os) + "/items/" + IntToString(plantId)
  }

  /** Two plant URLs on one platform name the same plant only if the ids agree. */
  lemma ItemUrlInjective(os: string, a: int, b: int)
    requires ItemUrl(os, a) == ItemUrl(os, b)
    ensures a == b
  {
    PrefixedIntInjective(ApiBaseUrl(os) + "/items/", a, b, "");
  }

  /** `getPlantsByAdminId`: the GET request. */
  function ListRequest(os: string, adminId: int): (req: Request)
    ensures req.verb == Get && req.body.None?
    ensures req.url == ApiBaseUrl(os) + "/items/admin/" + IntToString(adminId)
  {
    Request(Get, ApiBaseUrl(os) + "/items/admin/" + IntToString(adminId), None)
  }

  /** Decodes every item of a received array, keeping length and order. */
  function DecodeAll(data: seq<WirePlant>): (plants: seq<Plant>)
    ensures |plants| == |data|
    ensures forall i :: 0 <= i < |data| ==> plants[i] == FromApiResponse(data[i])
  {
    if |data| == 0 then []
    else [FromApiResponse(data[0])] + DecodeAll(data[1..])
  }

  /** Decoding a list is decoding its parts one after the other. */
  lemma {:induction false} DecodeAllAppend(a: seq<WirePlant>, b: seq<WirePlant>)
    ensures DecodeAll(a + b) == DecodeAll(a) + DecodeAll(b)
  {
    var l := DecodeAll(a + b);
    var r := DecodeAll(a) + DecodeAll(b);
    assert |l| == |r|;
    forall i | 0 <= i < |l| ensures l[i] == r[i] {
      if i < |a| {
        assert (a + b)[i] == a[i];
      } else {
        assert (a + b)[i] == b[i - |a|];
      }
    }
  }

  /** `getPlantsByAdminId`: interpreting the reply. */
  function ListReply(ex: Exchange<seq<WirePlant>>): (r: Result<seq<Plant>, ServiceError>)
    ensures ex.TransportFailed? ==> r == Failure(Rethrown(ex.reason))
    ensures ex.Answered? && !ex.response.ok ==> r == Failure(ApiError(ex.response.status))
    ensures ex.Answered? && ex.response.ok ==>
      && r.Success?
      && |r.value| == |ex.response.body|
      && forall i :: 0 <= i < |r.value| ==> r.value[i] == FromApiResponse(ex.response.body[i])
  {
    match ex
    case TransportFailed(reason) => Failure(Rethrown(reason))
    case Answered(resp) =>
      if !resp.ok then Failure(ApiError(resp.status)) else Success(DecodeAll(resp.body))
  }

  /** `createPlant`: the POST request. */
  function CreateRequest(os: string, plant: Plant): (req: Request)
    ensures req.verb == Post
    ensures req.url == ApiBaseUrl(os) + "/items"
    ensures req.body == Some(PlantBody(ToApiRequest(plant)))
  {
    Request(Post, ApiBaseUrl(os) + "/items", Some(PlantBody(ToApiRequest(plant))))
  }

  /** `updatePlant`: the PUT request, addressed by the plant's own id. */
  function UpdateRequest(os: string, plant: Plant): (req: Request)
    ensures req.verb == Put
    ensures req.url == ItemUrl(os, plant.id)
    ensures req.body == Some(PlantBody(ToApiRequest(plant)))
  {
    Request(Put, ItemUrl(os, plant.id), Some(PlantBody(ToApiRequest(plant))))
  }

  /** `updatePlantWateringStatus`: one PUT whose body holds only the flag. */
  function WateringRequest(os: string, plantId: int, isWatered: Option<bool>): (req: Request)
    ensures req.verb == Put
    ensures req.url == ItemUrl(os, plantId) + "/water"
    ensures req.body == Some(WateringBody(isWatered))
  {
    Request(Put, ItemUrl(os, plantId) + "/water", Some(WateringBody(isWatered)))
  }

  /** The reply of create, update and watering: the plant the server sent
      back, decoded. */
  function PlantReply(ex: Exchange<WirePlant>): (r: Result<Plant, ServiceError>)
    ensures ex.TransportFailed? ==> r == Failure(Rethrown(ex.reason))
    ensures ex.Answered? && !ex.response.ok ==> r == Failure(ApiError(ex.response.status))
    ensures ex.Answered? && ex.response.ok ==> r == Success(FromApiResponse(ex.response.body))
  {
    match ex
    case TransportFailed(reason) => Failure(Rethrown(reason))
    case Answered(resp) =>
      if !resp.ok then Failure(ApiError(resp.status)) else Success(FromApiResponse(resp.body))
  }

  /** `deletePlant`: the DELETE request, without a body. */
  function DeleteRequest(os: string, plantId: int): (req: Request)
    ensures req.verb == Delete && req.body.None?
    ensures req.url == ItemUrl(os, plantId)
  {
    Request(Delete, ItemUrl(os, plantId), None)
  }

  /** `deletePlant`: a non-ok status is reported as `false`, not thrown; only
      a transport failure throws. */
  function DeleteReply<B>(ex: Exchange<B>): (r: Result<bool, ServiceError>)
    ensures r.Failure? <==> ex.TransportFailed?
    ensures r.Failure? ==> r.error == Rethrown(ex.reason)
    ensures r == Success(true) <==> ex.Answered? && ex.response.ok
    ensures r == Success(false) <==> ex.Answered? && !ex.response.ok
  {
    match ex
    case TransportFailed(reason) => Failure(Rethrown(reason))
    case Answered(resp) => Success(resp.ok)
  }

  /** The watering URL is the plant URL with `/water` appended; update,
      watering and delete address the same plant resource, and the list URL
      lies under a different path. */
  lemma RequestUrlsShareItemPath(os: string, plant: Plant)
    ensures UpdateRequest(os, plant).url == DeleteRequest(os, plant.id).url
    ensures WateringRequest(os, plant.id, None).url == DeleteRequest(os, plant.id).url + "/water"
    ensures UpdateRequest(os, plant).verb != DeleteRequest(os, plant.id).verb
    ensures ListRequest(os, plant.id).url != ItemUrl(os, plant.id)
  {
    var prefix := ApiBaseUrl(os) + "/items/";
    var list := ListRequest(os, plant.id).url;
    var item := ItemUrl(os, plant.id);
    var digits := IntToString(plant.id);
    assert list == prefix + "admin/" + digits;
    assert list[|prefix|] == 'a';
    assert item[|prefix|] == digits[0];
    assert digits[0] == '-' || IsDigit(digits[0]);
  }

  /** Every non-ok status of list, create, update and watering is an error
      whose message names that status, and never a plant. */
  lemma NonOkIsApiError(status: int, list: seq<WirePlant>, one: WirePlant)
    ensures ListReply(Answered(Response(false, status, list))).Failure?
    ensures PlantReply(Answered(Response(false, status, one))).Failure?
    ensures Message(ListReply(Answered(Response(false, status, list))).error)
         == "API error: " + IntToString(status)
    ensures Message(PlantReply(Answered(Response(false, status, one))).error)
         == "API error: " + IntToString(status)
  {
  }
}
