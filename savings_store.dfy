/** The in-memory savings store (frontend/src/store/useSavingsStore.ts):
    records kept newest first, a running balance, and a level that rises by
    one each time the experience reaches `level * 100`. */
module SavingsStore {

  import opened Wrappers
  import opened Seqs

  /** `"음식" | "교통" | "쇼핑" | "엔터테인먼트" | "기타"` */
  datatype SavingCategory = Food | Transport | Shopping | Entertainment | Other

  datatype SavingRecord = SavingRecord(id: string, amount: int, category: SavingCategory, memo: Option<string>, createdAt: string)

  function RecordAmount(r: SavingRecord): int
  {
    r.amount
  }

  /** `Math.max(1, Math.floor(amount / 1000))`. */
  function XpGain(amount: int): (g: int)
    ensures g >= 1
    ensures amount >= 2000 ==> g == amount / 1000
    ensures amount < 2000 ==> g == 1
  {
    var q := amount / 1000;
    if q > 1 then q else 1
  }

  /** Experience needed to climb from level 1 to `level`: 100 + 200 + … + 100 * (level - 1). */
  function Cost(level: int): int
    requires level >= 1
  {
    if level == 1 then 0 else Cost(level - 1) + 100 * (level - 1)
  }

  /** All experience ever earned, as the pair (level, experience) holds it. */
  function TotalXp(level: int, experience: int): int
    requires level >= 1
  {
    Cost(level) + experience
  }

  /** The level-up rule applied until the experience is below `level * 100`. */
  function LevelUp(level: int, experience: int): (r: (int, int))
    requires level >= 1 && experience >= 0
    ensures r.0 >= level && r.1 >= 0
    decreases experience
  {
    if experience >= level * 100 then LevelUp(level + 1, experience - level * 100) else (level, experience)
  }

  /** The level never drops, the remaining experience is below the next
      threshold, and no experience is lost or created. */
  lemma {:induction false} LevelUpProperties(level: int, experience: int)
    requires level >= 1 && experience >= 0
    ensures 0 <= LevelUp(level, experience).1 < LevelUp(level, experience).0 * 100
    ensures TotalXp(LevelUp(level, experience).0, LevelUp(level, experience).1) == TotalXp(level, experience)
    decreases experience
  {
    if experience >= level * 100 {
      LevelUpProperties(level + 1, experience - level * 100);
    }
  }

  lemma {:induction false} CostStrictlyIncreasing(a: int, b: int)
    requires 1 <= a < b
    ensures Cost(b) >= Cost(a) + 100 * a
    decreases b - a
  {
    if b > a + 1 {
      CostStrictlyIncreasing(a, b - 1);
    }
  }

  /** The total experience alone fixes the level and the remaining experience. */
  lemma LevelDeterminedByTotal(l1: int, e1: int, l2: int, e2: int)
    requires l1 >= 1 && 0 <= e1 < l1 * 100
    requires l2 >= 1 && 0 <= e2 < l2 * 100
    requires TotalXp(l1, e1) == TotalXp(l2, e2)
    ensures l1 == l2 && e1 == e2
  {
    if l1 < l2 {
      CostStrictlyIncreasing(l1, l2);
    } else if l2 < l1 {
      CostStrictlyIncreasing(l2, l1);
    }
  }

  function TotalGain(records: seq<SavingRecord>): int
  {
    SumBy(records, (r: SavingRecord) => XpGain(r.amount))
  }

  class SavingsStoreState {
    var records: seq<SavingRecord>
    var balance: int
    var level: int
    var experience: int

    /** The balance is the sum of the records, and (level, experience) hold
        exactly the experience the records earned, in canonical form. */
    ghost predicate Valid()
      reads this
    {
      && level >= 1
      && 0 <= experience < level * 100
      && balance == SumBy(records, RecordAmount)
      && TotalXp(level, experience) == TotalGain(records)
    }

    constructor ()
      ensures Valid()
      ensures records == [] && balance == 0 && level == 1 && experience == 0
    {
      records := [];
      balance := 0;
      level := 1;
      experience := 0;
    }

    /** `addRecord(input)` with the generated id and timestamp as inputs. */
    method AddRecord(id: string, createdAt: string, amount: int, category: SavingCategory, memo: Option<string>)
      requires Valid()
      modifies this
      ensures Valid()
      ensures records == [SavingRecord(id, amount, category, memo, createdAt)] + old(records)
      ensures balance == old(balance) + amount
      ensures (level, experience) == LevelUp(old(level), old(experience) + XpGain(amount))
    {
      var newRecord := SavingRecord(id, amount, category, memo, createdAt);
      var nextBalance := balance + newRecord.amount;
      var nextExperience := experience + XpGain(newRecord.amount);
      var lvl := level;
      var exp := nextExperience;
      while exp >= lvl * 100
        invariant lvl >= 1 && exp >= 0
        invariant LevelUp(lvl, exp) == LevelUp(level, nextExperience)
        decreases exp
      {
        exp := exp - lvl * 100;
        lvl := lvl + 1;
      }
      LevelUpProperties(level, nextExperience);
      records := [newRecord] + records;
      balance := nextBalance;
      experience := exp;
      level := lvl;
    }
  }
}
