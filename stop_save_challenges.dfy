/** The challenge catalogue of the `stop.save` backend
    (backend/save/src/main/java/stop/save/service/ChallengeService.java): the
    three catalogue queries are derived repository queries over the table of
    challenges; creating and deactivating a challenge change that table. */
module StopSaveChallenges {

  import opened Wrappers
  import opened Seqs
  import opened Sorting

  datatype Challenge = Challenge(
    id: int,
    title: string,
    description: string,
    targetAmount: int,
    duration: int,
    experienceReward: int,
    isActive: bool,
    createdAt: int)

  const CHALLENGE_NOT_FOUND: string := "챌린지를 찾을 수 없습니다."

  /** How far above the user's savings a recommended target may lie. */
  const RECOMMEND_RANGE: int := 100000

  ghost predicate UniqueIds(challenges: seq<Challenge>)
  {
    forall a, b :: 0 <= a < b < |challenges| ==> challenges[a].id != challenges[b].id
  }

  /** `OrderByCreatedAtDesc`: the later challenge comes first. */
  predicate CreatedLater(a: Challenge, b: Challenge)
  {
    a.createdAt >= b.createdAt
  }

  /** `OrderByTargetAmountAsc`: the smaller target comes first. */
  predicate CheaperTarget(a: Challenge, b: Challenge)
  {
    a.targetAmount <= b.targetAmount
  }

  lemma OrdersAreTotalPreorders()
    ensures TotalPreorder(CreatedLater)
    ensures TotalPreorder(CheaperTarget)
  {
  }

  /** `findByIsActiveTrueOrderByCreatedAtDesc()`. */
  function ActiveChallenges(challenges: seq<Challenge>): (r: seq<Challenge>)
    ensures multiset(r) == multiset(Filter(challenges, (c: Challenge) => c.isActive))
  {
    Sort(Filter(challenges, (c: Challenge) => c.isActive), CreatedLater)
  }

  /** `getActiveChallenges()` lists every active challenge and no other,
      each once per row, latest first. */
  lemma ActiveChallengesProperties(challenges: seq<Challenge>)
    ensures forall c :: c in ActiveChallenges(challenges) <==> c in challenges && c.isActive
    ensures SortedBy(ActiveChallenges(challenges), CreatedLater)
    ensures |ActiveChallenges(challenges)| <= |challenges|
  {
    var active := Filter(challenges, (c: Challenge) => c.isActive);
    SortMembers(active, CreatedLater);
    OrdersAreTotalPreorders();
    SortSorted(active, CreatedLater);
  }

  /** `findByTargetAmountBetweenAndIsActiveTrue(total, total + 100000)`, in
      table order. */
  function RecommendedChallenges(challenges: seq<Challenge>, userTotalSavings: int): (r: seq<Challenge>)
    ensures forall c :: c in r <==>
              (c in challenges && c.isActive && userTotalSavings <= c.targetAmount <= userTotalSavings + RECOMMEND_RANGE)
  {
    Filter(challenges, (c: Challenge) => c.isActive && userTotalSavings <= c.targetAmount <= userTotalSavings + RECOMMEND_RANGE)
  }

  /** Recommendations keep the table order, and both range ends are included. */
  lemma RecommendedChallengesProperties(challenges: seq<Challenge>, userTotalSavings: int)
    ensures IsSubsequence(RecommendedChallenges(challenges, userTotalSavings), challenges)
    ensures forall c :: c in challenges && c.isActive && c.targetAmount == userTotalSavings ==>
              c in RecommendedChallenges(challenges, userTotalSavings)
    ensures forall c :: c in challenges && c.isActive && c.targetAmount == userTotalSavings + RECOMMEND_RANGE ==>
              c in RecommendedChallenges(challenges, userTotalSavings)
  {
    FilterIsSubsequence(challenges,
      (c: Challenge) => c.isActive && userTotalSavings <= c.targetAmount <= userTotalSavings + RECOMMEND_RANGE);
  }

  /** `findByDurationAndIsActiveTrueOrderByTargetAmountAsc(duration)`. */
  function ChallengesByDuration(challenges: seq<Challenge>, duration: int): (r: seq<Challenge>)
    ensures multiset(r) == multiset(Filter(challenges, (c: Challenge) => c.isActive && c.duration == duration))
  {
    Sort(Filter(challenges, (c: Challenge) => c.isActive && c.duration == duration), CheaperTarget)
  }

  /** The duration query lists exactly the active challenges of that
      duration, smallest target first. */
  lemma ChallengesByDurationProperties(challenges: seq<Challenge>, duration: int)
    ensures forall c :: c in ChallengesByDuration(challenges, duration) <==>
              c in challenges && c.isActive && c.duration == duration
    ensures SortedBy(ChallengesByDuration(challenges, duration), CheaperTarget)
  {
    var matching := Filter(challenges, (c: Challenge) => c.isActive && c.duration == duration);
    SortMembers(matching, CheaperTarget);
    OrdersAreTotalPreorders();
    SortSorted(matching, CheaperTarget);
  }

  function IndexOfChallenge(challenges: seq<Challenge>, id: int): (i: int)
    ensures -1 <= i < |challenges|
    ensures i >= 0 ==> challenges[i].id == id
    ensures i < 0 <==> forall j :: 0 <= j < |challenges| ==> challenges[j].id != id
  {
    IndexWhere(challenges, (c: Challenge) => c.id == id)
  }

  /** `getChallengeById(id)`: empty exactly when no row has the id. */
  function ChallengeById(challenges: seq<Challenge>, id: int): (r: Option<Challenge>)
    ensures r.None? <==> forall c :: c in challenges ==> c.id != id
    ensures r.Some? ==> r.value in challenges && r.value.id == id
  {
    var i := IndexOfChallenge(challenges, id);
    if i < 0 then None else Some(challenges[i])
  }

  /** With unique ids, the row found by id is the only row with that id. */
  lemma ChallengeByIdIsTheRow(challenges: seq<Challenge>, k: int)
    requires UniqueIds(challenges) && 0 <= k < |challenges|
    ensures ChallengeById(challenges, challenges[k].id) == Some(challenges[k])
  {
    var i := IndexOfChallenge(challenges, challenges[k].id);
    assert i >= 0;
  }

  /** The table after deactivating row `i`. */
  function Deactivated(challenges: seq<Challenge>, i: int): (r: seq<Challenge>)
    requires 0 <= i < |challenges|
    ensures |r| == |challenges| && !r[i].isActive
    ensures r[i] == challenges[i].(isActive := false)
    ensures forall j :: 0 <= j < |r| && j != i ==> r[j] == challenges[j]
  {
    challenges[i := challenges[i].(isActive := false)]
  }

  /** After deactivation no active row has the deactivated id, and every
      other active row is still active. */
  lemma DeactivatedRows(challenges: seq<Challenge>, i: int)
    requires UniqueIds(challenges) && 0 <= i < |challenges|
    ensures UniqueIds(Deactivated(challenges, i))
    ensures forall c :: c in Deactivated(challenges, i) && c.isActive ==> c.id != challenges[i].id
    ensures forall c :: c in challenges && c.isActive && c.id != challenges[i].id ==>
              c in Deactivated(challenges, i)
  {
    var after := Deactivated(challenges, i);
    var id := challenges[i].id;
    forall j | 0 <= j < |after| && after[j].isActive ensures after[j].id != id {
      assert j != i;
      if j < i {
        assert challenges[j].id != challenges[i].id;
      } else {
        assert challenges[i].id != challenges[j].id;
      }
    }
    forall c | c in after && c.isActive ensures c.id != id {
      var j :| 0 <= j < |after| && after[j] == c;
    }
    forall c | c in challenges && c.isActive && c.id != id ensures c in after {
      var j :| 0 <= j < |challenges| && challenges[j] == c;
      assert j != i;
      assert after[j] == c;
    }
  }

  /** A deactivated challenge disappears from all three catalogue queries,
      and every other active challenge stays in the active list. */
  lemma DeactivatedIsHidden(challenges: seq<Challenge>, i: int, userTotalSavings: int, duration: int)
    requires UniqueIds(challenges) && 0 <= i < |challenges|
    ensures forall c :: c in ActiveChallenges(Deactivated(challenges, i)) ==> c.id != challenges[i].id
    ensures forall c :: c in RecommendedChallenges(Deactivated(challenges, i), userTotalSavings) ==> c.id != challenges[i].id
    ensures forall c :: c in ChallengesByDuration(Deactivated(challenges, i), duration) ==> c.id != challenges[i].id
    ensures forall c :: c in challenges && c.isActive && c.id != challenges[i].id ==>
              c in ActiveChallenges(Deactivated(challenges, i))
  {
    DeactivatedRows(challenges, i);
    ActiveChallengesProperties(Deactivated(challenges, i));
    ChallengesByDurationProperties(Deactivated(challenges, i), duration);
  }

  /** A freshly created challenge is listed by the active query, and by the
      recommendation query exactly when its target is in range. */
  lemma CreatedIsListed(challenges: seq<Challenge>, c: Challenge, userTotalSavings: int)
    requires c.isActive
    ensures c in ActiveChallenges(challenges + [c])
    ensures c in RecommendedChallenges(challenges + [c], userTotalSavings) <==>
              userTotalSavings <= c.targetAmount <= userTotalSavings + RECOMMEND_RANGE
    ensures c in ChallengesByDuration(challenges + [c], c.duration)
  {
    ActiveChallengesProperties(challenges + [c]);
    ChallengesByDurationProperties(challenges + [c], c.duration);
  }

  /** The `challenges` table behind `ChallengeService`. */
  class ChallengeService {
    var challenges: seq<Challenge>
    var nextId: int

    ghost predicate Valid()
      reads this
    {
      && UniqueIds(challenges)
      && forall c :: c in challenges ==> c.id < nextId
    }

    constructor ()
      ensures Valid() && challenges == []
    {
      challenges := [];
      nextId := 1;
    }

    /** `createChallenge(...)`; `now` is the `@CreationTimestamp` instant. */
    method CreateChallenge(title: string, description: string, targetAmount: int, duration: int,
                           experienceReward: int, now: int) returns (c: Challenge)
      requires Valid()
      modifies this
      ensures Valid()
      ensures c == Challenge(old(nextId), title, description, targetAmount, duration, experienceReward, true, now)
      ensures challenges == old(challenges) + [c]
      ensures nextId == old(nextId) + 1
    {
      c := Challenge(nextId, title, description, targetAmount, duration, experienceReward, true, now);
      forall a | 0 <= a < |challenges| ensures challenges[a].id != c.id {
        assert challenges[a] in challenges;
      }
      challenges := challenges + [c];
      nextId := nextId + 1;
    }

    /** `deactivateChallenge(challengeId)`. */
    method DeactivateChallenge(challengeId: int) returns (r: Result<Challenge>)
      requires Valid()
      modifies this
      ensures Valid()
      ensures IndexOfChallenge(old(challenges), challengeId) < 0 ==>
                r == Err(CHALLENGE_NOT_FOUND) && challenges == old(challenges)
      ensures IndexOfChallenge(old(challenges), challengeId) >= 0 ==>
                var i := IndexOfChallenge(old(challenges), challengeId);
                r == Ok(old(challenges)[i].(isActive := false)) && challenges == Deactivated(old(challenges), i)
      ensures nextId == old(nextId)
    {
      var i := IndexOfChallenge(challenges, challengeId);
      if i < 0 {
        return Err(CHALLENGE_NOT_FOUND);
      }
      DeactivatedRows(challenges, i);
      var updated := challenges[i].(isActive := false);
      assert forall c :: c in Deactivated(challenges, i) ==> c == updated || c in challenges;
      challenges := Deactivated(challenges, i);
      return Ok(updated);
    }
  }
}
