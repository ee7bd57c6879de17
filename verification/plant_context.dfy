/** The state held by `PlantProvider` in `context/PlantContext.tsx`, and what
    each of its callbacks does to it once the service call has settled. The
    service outcome is an input; the React hooks are gone. */
module PlantContext {
  import opened Wrappers
  import opened Plants
  import opened PlantService

  datatype PlantState = PlantState(
    plants: seq<Plant>,
    loadingPlants: bool,
    errorMessage: Option<string>)

  /** The state before any effect has run. */
  const Initial := PlantState([], true, None)

  const LoadFailed: string := "Failed to load plants. Please try again later."
  const WaterFailed: string := "Failed to water plant. Please try again."
  const AddFailed: string := "Failed to add plant. Please try again."
  const UpdateFailed: string := "Failed to update plant. Please try again."
  const DeleteFailed: string := "Failed to delete plant. Please try again."

  /** Whether the provider treats the user id as a logged-in user: the id
      must be present and, being tested for truthiness, not zero. */
  predicate HasUser(userId: Option<int>)
    ensures HasUser(userId) ==> userId.Some?
    ensures userId == Some(0) ==> !HasUser(userId)
  {
    userId.Some? && userId.value != 0
  }

  /** Every plant with the given id replaced by `q`, all others kept in
      place. */
  function ReplaceById(plants: seq<Plant>, id: int, q: Plant): (r: seq<Plant>)
    ensures |r| == |plants|
    ensures forall i :: 0 <= i < |plants| && plants[i].id == id ==> r[i] == q
    ensures forall i :: 0 <= i < |plants| && plants[i].id != id ==> r[i] == plants[i]
  {
    if |plants| == 0 then []
    else [if plants[0].id == id then q else plants[0]] + ReplaceById(plants[1..], id, q)
  }

  /** Replacing a second time with the same plant changes nothing, even when
      the replacement carries a different id. */
  lemma ReplaceByIdIdempotent(plants: seq<Plant>, id: int, q: Plant)
    ensures ReplaceById(ReplaceById(plants, id, q), id, q) == ReplaceById(plants, id, q)
  {
  }

  /** Replacing an id that no plant has leaves the list as it was. */
  lemma ReplaceMissingId(plants: seq<Plant>, id: int, q: Plant)
    requires forall i :: 0 <= i < |plants| ==> plants[i].id != id
    ensures ReplaceById(plants, id, q) == plants
  {
  }

  /** Number of plants with the given id. */
  function CountId(plants: seq<Plant>, id: int): nat
  {
    if |plants| == 0 then 0
    else (if plants[0].id == id then 1 else 0) + CountId(plants[1..], id)
  }

  /** The plants without the given id, in their original order. */
  function RemoveById(plants: seq<Plant>, id: int): (r: seq<Plant>)
    ensures forall i :: 0 <= i < |r| ==> r[i].id != id
    ensures |r| + CountId(plants, id) == |plants|
  {
    if |plants| == 0 then []
    else if plants[0].id == id then RemoveById(plants[1..], id)
    else [plants[0]] + RemoveById(plants[1..], id)
  }

  /** The survivors are exactly the plants without the removed id. */
  lemma {:induction false} RemoveByIdMembers(plants: seq<Plant>, id: int)
    ensures forall p :: p in RemoveById(plants, id) <==> p in plants && p.id != id
    decreases |plants|
  {
    if |plants| > 0 {
      RemoveByIdMembers(plants[1..], id);
      assert plants == [plants[0]] + plants[1..];
    }
  }

  /** Filtering respects concatenation, so the survivors keep their
      relative order. */
  lemma {:induction false} RemoveByIdAppend(a: seq<Plant>, b: seq<Plant>, id: int)
    ensures RemoveById(a + b, id) == RemoveById(a, id) + RemoveById(b, id)
    decreases |a|
  {
    if |a| == 0 {
      assert a + b == b;
    } else {
      var ab := a + b;
      assert ab[0] == a[0];
      assert ab[1..] == a[1..] + b;
      RemoveByIdAppend(a[1..], b, id);
      if a[0].id == id {
        assert RemoveById(ab, id) == RemoveById(a[1..] + b, id);
        assert RemoveById(a, id) == RemoveById(a[1..], id);
      } else {
        assert RemoveById(ab, id) == [a[0]] + RemoveById(a[1..] + b, id);
        assert RemoveById(a, id) == [a[0]] + RemoveById(a[1..], id);
      }
    }
  }

  /** Removing an id no plant has leaves the list as it was. */
  lemma {:induction false} RemoveMissingId(plants: seq<Plant>, id: int)
    requires forall i :: 0 <= i < |plants| ==> plants[i].id != id
    ensures RemoveById(plants, id) == plants
    decreases |plants|
  {
    if |plants| > 0 {
      RemoveMissingId(plants[1..], id);
    }
  }

  /** The state right after `refreshPlants` has started its request. */
  function RefreshStarted(s: PlantState): (t: PlantState)
    ensures t.plants == s.plants && t.loadingPlants && t.errorMessage.None?
  {
    s.(loadingPlants := true, errorMessage := None)
  }

  /** `refreshPlants`: with no user it does nothing; otherwise the list is
      replaced on success, the load error is set on failure, and loading
      ends in either case. */
  function Refresh(s: PlantState, userId: Option<int>, reply: Result<seq<Plant>, ServiceError>): (t: PlantState)
    ensures !HasUser(userId) ==> t == s
    ensures HasUser(userId) ==> !t.loadingPlants
    ensures HasUser(userId) && reply.Success? ==> t.plants == reply.value && t.errorMessage.None?
    ensures HasUser(userId) && reply.Failure? ==> t.plants == s.plants && t.errorMessage == Some(LoadFailed)
  {
    if !HasUser(userId) then s
    else
      var started := RefreshStarted(s);
      match reply
      case Success(fetched) => started.(plants := fetched, loadingPlants := false)
      case Failure(_) => started.(errorMessage := Some(LoadFailed), loadingPlants := false)
  }

  /** `waterPlant(plantId)`: on success every plant with that id becomes the
      returned plant; on failure only the error message changes. */
  function WaterPlant(s: PlantState, plantId: int, reply: Result<Plant, ServiceError>): (t: PlantState)
    ensures t.loadingPlants == s.loadingPlants
    ensures reply.Success? ==> t.errorMessage == s.errorMessage
    ensures reply.Success? ==> t.plants == ReplaceById(s.plants, plantId, reply.value)
    ensures reply.Failure? ==> t.plants == s.plants && t.errorMessage == Some(WaterFailed)
  {
    match reply
    case Success(updated) => s.(plants := ReplaceById(s.plants, plantId, updated))
    case Failure(_) => s.(errorMessage := Some(WaterFailed))
  }

  /** `addPlant(plant)`: on success the created plant is appended. */
  function AddPlant(s: PlantState, reply: Result<Plant, ServiceError>): (t: PlantState)
    ensures t.loadingPlants == s.loadingPlants
    ensures reply.Success? ==>
      && t.errorMessage == s.errorMessage
      && |t.plants| == |s.plants| + 1
      && t.plants[..|s.plants|] == s.plants
      && t.plants[|s.plants|] == reply.value
    ensures reply.Failure? ==> t.plants == s.plants && t.errorMessage == Some(AddFailed)
  {
    match reply
    case Success(created) => s.(plants := s.plants + [created])
    case Failure(_) => s.(errorMessage := Some(AddFailed))
  }

  /** `updatePlant(plant)`: on success the plants matching the ARGUMENT's id
      become the returned plant, whatever id the server gave it. */
  function UpdatePlant(s: PlantState, plant: Plant, reply: Result<Plant, ServiceError>): (t: PlantState)
    ensures t.loadingPlants == s.loadingPlants
    ensures reply.Success? ==> t.errorMessage == s.errorMessage
    ensures reply.Success? ==> t.plants == ReplaceById(s.plants, plant.id, reply.value)
    ensures reply.Failure? ==> t.plants == s.plants && t.errorMessage == Some(UpdateFailed)
  {
    match reply
    case Success(updated) => s.(plants := ReplaceById(s.plants, plant.id, updated))
    case Failure(_) => s.(errorMessage := Some(UpdateFailed))
  }

  /** `deletePlant(plantId)`: a `true` reply filters the plant out; a `false`
      reply is turned into a thrown error and handled like a failure. */
  function DeletePlant(s: PlantState, plantId: int, reply: Result<bool, ServiceError>): (t: PlantState)
    ensures t.loadingPlants == s.loadingPlants
    ensures reply == Success(true) ==>
      && t.errorMessage == s.errorMessage
      && t.plants == RemoveById(s.plants, plantId)
      && |t.plants| == |s.plants| - CountId(s.plants, plantId)
      && (forall p :: p in t.plants <==> p in s.plants && p.id != plantId)
    ensures reply != Success(true) ==> t.plants == s.plants && t.errorMessage == Some(DeleteFailed)
  {
    match reply
    case Success(true) =>
      RemoveByIdMembers(s.plants, plantId);
      s.(plants := RemoveById(s.plants, plantId))
    case _ => s.(errorMessage := Some(DeleteFailed))
  }

  /** The effect that runs when the user id changes: load for a user, clear
      the list without one. */
  function UserEffect(s: PlantState, userId: Option<int>, reply: Result<seq<Plant>, ServiceError>): (t: PlantState)
    ensures HasUser(userId) ==> t == Refresh(s, userId, reply)
    ensures !HasUser(userId) ==> t.plants == [] && !t.loadingPlants && t.errorMessage == s.errorMessage
  {
    if HasUser(userId) then Refresh(s, userId, reply)
    else s.(plants := [], loadingPlants := false)
  }

  /** The user id the provider reads as the code is wired: the auth context's
      value has no `userData` field, so `userData?.id` is always undefined,
      logged in or not. */
  function WiredUserId(isAuthenticated: bool): (userId: Option<int>)
    ensures !HasUser(userId)
  {
    None
  }

  /** As wired, a refresh never runs and the effect always empties the list,
      even for a logged-in user whose fetch would succeed. */
  lemma WiredProviderNeverLoads(s: PlantState, fetched: seq<Plant>)
    requires |fetched| > 0
    ensures Refresh(s, WiredUserId(true), Success(fetched)) == s
    ensures UserEffect(s, WiredUserId(true), Success(fetched)).plants == []
    ensures UserEffect(s, WiredUserId(true), Success(fetched)).plants != fetched
  {
  }

  /** With the user id supplied, the effect loads the fetched list. */
  lemma SuppliedUserLoads(s: PlantState, userId: int, fetched: seq<Plant>)
    requires userId != 0
    ensures UserEffect(s, Some(userId), Success(fetched))
         == PlantState(fetched, false, None)
  {
  }

  /** The provider starts out loading an empty list with no error; without a
      user, the effect turns that into an idle empty list. */
  lemma InitialThenNoUser(userId: Option<int>, reply: Result<seq<Plant>, ServiceError>)
    requires !HasUser(userId)
    ensures Initial.plants == [] && Initial.loadingPlants && Initial.errorMessage.None?
    ensures UserEffect(Initial, userId, reply) == PlantState([], false, None)
  {
  }

  /** Whatever happens, the effect leaves the list no longer loading. */
  lemma UserEffectEndsLoading(s: PlantState, userId: Option<int>, reply: Result<seq<Plant>, ServiceError>)
    ensures !UserEffect(s, userId, reply).loadingPlants
  {
  }

  /** A user id of zero counts as no user at all. */
  lemma ZeroUserIdIsNoUser(s: PlantState, reply: Result<seq<Plant>, ServiceError>)
    ensures Refresh(s, Some(0), reply) == s
    ensures UserEffect(s, Some(0), reply) == UserEffect(s, None, reply)
  {
  }

  /** Adding a plant with a fresh id and then deleting that id gives back
      the list from before. */
  lemma AddThenDelete(s: PlantState, created: Plant)
    requires forall i :: 0 <= i < |s.plants| ==> s.plants[i].id != created.id
    ensures DeletePlant(AddPlant(s, Success(created)), created.id, Success(true)).plants == s.plants
  {
    RemoveByIdAppend(s.plants, [created], created.id);
    RemoveMissingId(s.plants, created.id);
  }

  /** A failed call of any kind leaves the list of plants as it was. */
  lemma FailuresKeepPlants(s: PlantState, id: int, plant: Plant, e: ServiceError)
    ensures WaterPlant(s, id, Failure(e)).plants == s.plants
    ensures AddPlant(s, Failure(e)).plants == s.plants
    ensures UpdatePlant(s, plant, Failure(e)).plants == s.plants
    ensures DeletePlant(s, id, Failure(e)).plants == s.plants
    ensures DeletePlant(s, id, Success(false)).plants == s.plants
  {
  }
}
