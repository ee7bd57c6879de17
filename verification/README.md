# PlantApp data layer in Dafny

A model of the data layer of a houseplant-tracking mobile client. It covers four parts:

- the `Plant` record and its mapping to and from the JSON the REST API exchanges;
- the watering display text and the defaulting factory;
- the request each service call builds and how it reads the reply;
- the pure state changes the plant and auth providers apply once a call has settled.

Modules, one per source file, plus two helper modules:

- `Wrappers` (`wrappers.dfy`): `Option`, `Result`, and `Field` (a JSON object field that is missing, `null` or present). It also holds `OrDefault` and `Nullable`, which are JavaScript's `x || d` and `x !== undefined ? x : null` on such a field.
- `Text` (`text.dfy`): `String.prototype.split` on a one-character separator, and the decimal rendering of an integer in a template literal. Each comes with its inverse: `Split`/`Join` and `NatToString`/`ParseNat`.
- `Plants` (`plants.dfy`), for `models/Plant.ts`: the record, `FromApiResponse`, `ToApiRequest`, `WateringDueText` and `CreateNew`, plus the round-trip lemmas.
- `PlantService` (`plant_service.dfy`), for `models/PlantService.ts`:
  - `fetch` is replaced by an input `Exchange`, which is either a response `{ok, status, body}` or a transport failure;
  - each operation is a request builder plus a reply interpreter.
- `PlantContext` (`plant_context.dfy`), for `context/PlantContext.tsx`:
  - the state is `(plants, loadingPlants, errorMessage)`;
  - each callback is a function of that state and the service outcome.
- `AuthContext` (`auth_context.dfy`), for `context/AuthContext.tsx`: the credential match and the `isAuthenticated` transitions of `login` and `logout`.

Three details of the code shape the model:

- **Marking a plant watered** is one `PUT /items/{id}/water` whose body is `{ isWatered }`.
- **The image sent** is `image.split(',')[1] || null`: the piece between the first and the second comma, or null.
- **The base URL** is chosen from `Platform.OS`.

The plant provider reads `userData` from `useAuth()`, but the auth context exposes no such field. The model therefore takes the user id as an explicit `Option<int>` input. The provider tests it for JavaScript truthiness, so an id of `0` counts as no user (`ZeroUserIdIsNoUser`). The missing `userData` is recorded under Findings.

## Model

| member | source | states |
|---|---|---|
| `Wrappers.OrDefault` | models/Plant.ts:70-73 | `field \|\| default`: a present value is kept, a missing or null field gives the type's falsy default |
| `Wrappers.Nullable` | models/Plant.ts:75 | an explicit value of `dayUntilWater` is kept; both `undefined` and `null` become null |
| `Text.Split` | models/Plant.ts:89 | `split(',')` yields at least one piece; no piece holds a comma; joining the pieces with commas gives back the string |
| `Text.SplitJoin` | models/Plant.ts:89 | `Split` inverts `Join` on comma-free pieces, so the split is the only such decomposition |
| `Text.IntToString` | models/Plant.ts:109 | a template literal's rendering of an integer: non-empty, a leading minus exactly for negatives, only digits otherwise |
| `Text.IntToStringInjective` | models/Plant.ts:109 | the decimal rendering of an integer determines the integer |
| `Text.ParseNatToString` | models/Plant.ts:109 | reading the rendered digits back gives the number |
| `Plants.AdminIdOf` | models/Plant.ts:76 | `data.adminLogin?.id \|\| 0`: the nested id when both the object and its id are present, else 0 |
| `Plants.WrapImage` | models/Plant.ts:65-67 | a non-empty payload P becomes `data:image/jpeg;base64,` + P; a missing, null or empty payload becomes null |
| `Plants.FromApiResponse` | models/Plant.ts:63-77 | decoding never fails; a missing id, name, waterNeeded or isWatered gives 0, "", 0 or false, and a present one is kept; adminLoginId is the nested `adminLogin.id` when the object and its id are present, else 0; dayUntilWater is null exactly when missing or null; the image is wrapped as for `WrapImage` |
| `Plants.StripImagePrefix` | models/Plant.ts:89 | the sent image is never missing; a null image gives null; a present result is non-empty and comma-free |
| `Plants.StripDecomposed` | models/Plant.ts:89 | for `header + "," + payload + tail` with a comma-free header and payload and a tail that is empty or starts at the second comma, the payload is sent, or null when it is empty |
| `Plants.StripWithoutComma` | models/Plant.ts:89 | an image string without a comma is sent as null |
| `Plants.ToApiRequest` | models/Plant.ts:84-95 | id, name, waterNeeded, isWatered and dayUntilWater are copied, a missing schedule as null; the admin id is sent only as `adminLogin.id`; the image is exactly the piece `StripImagePrefix` gives (null for no image, otherwise a non-empty comma-free payload) |
| `Plants.RoundTripFields` | models/Plant.ts:63-95 | decoding the encoding of any plant gives back every field but the image; the image comes back as the sent payload under the jpeg header, or null |
| `Plants.RoundTripNoImage` | models/Plant.ts:63-95 | a plant without an image survives encode-then-decode unchanged |
| `Plants.RoundTripJpeg` | models/Plant.ts:63-95 | a plant whose image is the jpeg header plus a non-empty comma-free payload survives encode-then-decode unchanged |
| `Plants.RoundTripRelabels` | models/Plant.ts:63-95 | any single-header data URI comes back with the same payload under the jpeg header |
| `Plants.PngComesBackAsJpeg` | models/Plant.ts:66 | a png data URI comes back relabelled as jpeg, so the round trip does not give back the plant |
| `Plants.RoundTripIdempotent` | models/Plant.ts:63-95 | a plant that has been through the wire once is a fixed point of encode-then-decode |
| `Plants.WateringDueText` | models/Plant.ts:99-111 | "No watering schedule set" exactly when there is no schedule; "Watering due today!" exactly for values at or below 0; "Water tomorrow" exactly for 1; "Water in N days" with decimal N above 1 |
| `Plants.WateringDueTextInjective` | models/Plant.ts:104-110 | except for values at or below 0, which share one text, different day counts give different texts |
| `Plants.CreateNew` | models/Plant.ts:118-128 | a new plant has id 0, empty name, waterNeeded 0, not watered, no image, no schedule and the given admin id, so it shows "No watering schedule set" |
| `Plants.DecodeDefaultsAreCreateNew` | models/Plant.ts:69-77 | decoding `{}` gives `createNew(0)`; decoding an object that holds only the admin id gives `createNew` of that id |
| `PlantService.ApiBaseUrl` | models/PlantService.ts:6-15 | the base is `http://192.168.1.139:8080` exactly on android and ios, and `http://localhost:8080` on every other platform |
| `PlantService.Message` | models/PlantService.ts:33 | the message of a non-ok error is `API error: ` followed by the decimal status; a transport error keeps its own reason |
| `PlantService.ItemUrl` | models/PlantService.ts:79 | a plant's URL is the base, then `/items/`, then the id in decimal, so the id can be read back from its end |
| `PlantService.ApiErrorMessageInjective` | models/PlantService.ts:33 | the message `API error: <status>` determines the status |
| `PlantService.ItemUrlInjective` | models/PlantService.ts:79 | on one platform, two plant URLs are equal only for equal ids |
| `PlantService.ListRequest` | models/PlantService.ts:23-29 | GET `base/items/admin/<adminId>` without a body |
| `PlantService.DecodeAll` | models/PlantService.ts:40 | the decoded list has the response's length and order; element i is `fromApiResponse` of item i |
| `PlantService.DecodeAllAppend` | models/PlantService.ts:40 | decoding a concatenation decodes each part in turn |
| `PlantService.ListReply` | models/PlantService.ts:31-40 | a non-ok status gives the API error for that status and no list; a transport failure is rethrown; an ok reply decodes every item in order |
| `PlantService.CreateRequest` | models/PlantService.ts:52-59 | POST `base/items` with the plant's wire encoding as the body |
| `PlantService.UpdateRequest` | models/PlantService.ts:79-86 | PUT `base/items/<plant.id>` with the plant's wire encoding as the body |
| `PlantService.WateringRequest` | models/PlantService.ts:104-113 | one PUT to `base/items/<plantId>/water` whose body carries only the `isWatered` flag, possibly undefined |
| `PlantService.PlantReply` | models/PlantService.ts:61-67 | create, update and watering replies: a non-ok status gives the API error and no plant; a transport failure is rethrown; an ok reply decodes the body |
| `PlantService.DeleteRequest` | models/PlantService.ts:133-135 | DELETE `base/items/<plantId>` without a body |
| `PlantService.DeleteReply` | models/PlantService.ts:137-146 | an ok status gives true and a non-ok status gives false, not an error; only a transport failure throws |
| `PlantService.RequestUrlsShareItemPath` | models/PlantService.ts:79-135 | update and delete address the same plant URL with different verbs; the watering URL is that URL plus `/water`; the list URL for the same number is a different URL |
| `PlantService.NonOkIsApiError` | models/PlantService.ts:31-34 | for list and for create, update and watering, a non-ok status is a failure whose message is `API error: ` + status |
| `PlantContext.HasUser` | context/PlantContext.tsx:38 | only a present user id counts as a user, and an id of 0 does not |
| `PlantContext.InitialThenNoUser` | context/PlantContext.tsx:29-31 | the provider starts loading an empty list with no error; without a user the effect leaves it an idle empty list |
| `PlantContext.ReplaceById` | context/PlantContext.tsx:59-63 | same length; every element with the id becomes the new plant; every other element is unchanged |
| `PlantContext.ReplaceByIdIdempotent` | context/PlantContext.tsx:59-63 | replacing again with the same plant changes nothing, even when the new plant has another id |
| `PlantContext.ReplaceMissingId` | context/PlantContext.tsx:59-63 | replacing an id no plant has leaves the list unchanged |
| `PlantContext.RemoveById` | context/PlantContext.tsx:98 | no survivor has the id; the length drops by exactly the number of plants with that id |
| `PlantContext.RemoveByIdMembers` | context/PlantContext.tsx:98 | a plant survives exactly when it was in the list and has another id |
| `PlantContext.RemoveByIdAppend` | context/PlantContext.tsx:98 | filtering a concatenation filters each part, so survivors keep their relative order |
| `PlantContext.RemoveMissingId` | context/PlantContext.tsx:98 | removing an id no plant has leaves the list unchanged |
| `PlantContext.RefreshStarted` | context/PlantContext.tsx:40-41 | once a refresh starts, the list is kept, loading is on and the error is cleared |
| `PlantContext.Refresh` | context/PlantContext.tsx:37-52 | without a user nothing changes; with one, loading ends false; success installs the fetched list and clears the error; failure keeps the list and sets the load error |
| `PlantContext.WaterPlant` | context/PlantContext.tsx:54-68 | success replaces the plants with that id by the returned plant and touches nothing else; failure keeps the list and sets the watering error |
| `PlantContext.AddPlant` | context/PlantContext.tsx:70-78 | success appends the created plant: one more element, the old list as a prefix; failure keeps the list and sets the add error |
| `PlantContext.UpdatePlant` | context/PlantContext.tsx:80-92 | success replaces the plants matching the argument's id, not the returned plant's id; failure keeps the list and sets the update error |
| `PlantContext.DeletePlant` | context/PlantContext.tsx:94-106 | a true reply removes exactly the plants with that id; a false reply or a failure keeps the list and sets the delete error |
| `PlantContext.UserEffect` | context/PlantContext.tsx:109-116 | with a user it is a refresh; without one the list is emptied and loading ends |
| `PlantContext.UserEffectEndsLoading` | context/PlantContext.tsx:109-116 | after the effect, loading is off whatever the outcome |
| `PlantContext.ZeroUserIdIsNoUser` | context/PlantContext.tsx:38 | a user id of 0 is treated as no user by both the refresh and the effect |
| `PlantContext.WiredUserId` | context/PlantContext.tsx:32 | the id the provider reads from `useAuth()` never counts as a user, because the auth value has no `userData` |
| `PlantContext.WiredProviderNeverLoads` | context/PlantContext.tsx:108-116 | as wired, a logged-in user's refresh does nothing and the effect empties the list, whatever the fetch would return |
| `PlantContext.SuppliedUserLoads` | context/PlantContext.tsx:108-116 | with a non-zero user id supplied, a successful fetch becomes the list, with loading off and no error |
| `PlantContext.AddThenDelete` | context/PlantContext.tsx:72-98 | adding a plant with a fresh id and then deleting that id gives back the old list |
| `PlantContext.FailuresKeepPlants` | context/PlantContext.tsx:64-104 | a failed water, add, update or delete, and a false delete reply, leave the list unchanged |
| `AuthContext.LoginRequest` | context/AuthContext.tsx:29-47 | login issues GET `http://192.168.1.139:8080/adminlogins` on every platform |
| `AuthContext.LoginUrlMatchesBase` | context/AuthContext.tsx:29-36 | the login URL lies under the plant API's base URL exactly on android and ios |
| `AuthContext.Matches` | context/AuthContext.tsx:59 | a user matches only when both fields are present and strictly equal to the inputs |
| `AuthContext.FindUser` | context/AuthContext.tsx:58-60 | nothing is found exactly when no user has both fields equal to the inputs; otherwise the first such user is found |
| `AuthContext.Login` | context/AuthContext.tsx:23-73 | the result is true exactly when the response is ok and some user matches; a success sets the flag; otherwise the flag is unchanged, a prior true included |
| `AuthContext.Logout` | context/AuthContext.tsx:76-78 | after logout the flag is false |
| `AuthContext.LoginIgnoresOrder` | context/AuthContext.tsx:58-60 | the login outcome depends on which users were fetched, not on their order |
| `AuthContext.LoginNeverClears` | context/AuthContext.tsx:63-78 | a login attempt never clears a true flag; only logout does |

## Findings

| source | as written | input that shows it | evidently intended | confidence | as-written member | corrected member |
|---|---|---|---|---|---|---|
| context/PlantContext.tsx:32 | `const { userData } = useAuth()`. The auth context's value holds only `isAuthenticated`, `login` and `logout` (context/AuthContext.tsx:5-9), so `userData?.id` is always undefined | a logged-in user with a non-empty plant list on the server: the effect takes the no-user branch and shows an empty list | the provider receives the logged-in user's id and loads that user's plants | high (not executed) | `PlantContext.WiredProviderNeverLoads` | `PlantContext.SuppliedUserLoads` |

## Left out

- Transport: `fetch`, headers and the `cache` option are left out. A delivered response is an input, and so is a failure to deliver one.
- JSON text: `JSON.stringify` and `response.json()` are left out. Wire objects are typed values. A body that cannot be read or decoded is treated as a transport failure.
- Logging: `console.*` calls have no effect on state or results, so they are left out.
- Async ordering: overlapping calls and React's batching of state updates are left out. Each callback is modelled as one transition from the state it observed to its final state. Only the refresh models its intermediate "loading" state, as `RefreshStarted`.
- JavaScript values of the wrong type are out of scope: `NaN`, strings where numbers belong, non-array list bodies, and so on. Wire fields are typed `Field`s, so JavaScript's falsy coercion of such values is out of scope too.
- Numbers are unbounded integers. Fractional day counts, ids and statuses are not modelled, nor the float rendering that `${...}` would give them.
- Mark-watered as read-then-write is not modelled, because the code sends a single PUT. The `isWatered` argument is an opaque `Option<bool>`. Its caller passes none, so `JSON.stringify` sends an empty object.
- Wiring the two contexts together is left out: the plant provider's user id is an explicit input, because the auth context does not expose one.
- AuthContext.Login: a user list that is not an array is not modelled. In the code, `find` would throw on it and `login` would return false.
- Other code is not part of this model: screens, navigation, the scroll view component, font loading, theming, the test setup and mocks, and the type stubs.
