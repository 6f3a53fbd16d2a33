/** The records and the user as the web client receives them
    (frontend/src/types/user.ts); instants are milliseconds as in module Time. */
module ClientTypes {

  import opened Wrappers
  import opened Seqs

  datatype LoginType = Google | Local

  datatype User = User(
    id: int,
    email: string,
    nickname: string,
    username: string,
    level: int,
    experience: int,
    totalSavings: int,
    monthlyTarget: int,
    picture: Option<string>,
    loginType: LoginType,
    role: string)

  /** `SavingRecord` and `ExpenseRecord` have the same shape. */
  datatype Record = Record(
    id: int,
    itemName: string,
    amount: int,
    category: string,
    memo: Option<string>,
    createdAt: int)

  function AmountOf(r: Record): int
  {
    r.amount
  }

  /** The records whose category equals `category`, in their original order. */
  function OfCategory(records: seq<Record>, category: string): (r: seq<Record>)
    ensures forall x :: x in r <==> x in records && x.category == category
  {
    Filter(records, (x: Record) => x.category == category)
  }

  lemma OfCategoryKeepsOrder(records: seq<Record>, category: string)
    ensures IsSubsequence(OfCategory(records, category), records)
  {
    FilterIsSubsequence(records, (x: Record) => x.category == category);
  }

  /** The total amount of the records of one category. */
  function CategoryAmount(records: seq<Record>, category: string): int
  {
    SumBy(OfCategory(records, category), AmountOf)
  }

  /** Every record counts towards its own category's total and no other's:
      one category's total plus the total of the rest is the plain total. */
  lemma CategoryAmountSplit(records: seq<Record>, category: string)
    ensures SumBy(records, AmountOf)
            == CategoryAmount(records, category) + SumBy(Filter(records, (x: Record) => x.category != category), AmountOf)
  {
    SumByFilterSplit(records, (x: Record) => x.category == category, (x: Record) => x.category != category, AmountOf);
  }

  /** `Partial<User>`: a present field overrides the user's own. */
  datatype UserPatch = UserPatch(
    id: Option<int>,
    email: Option<string>,
    nickname: Option<string>,
    username: Option<string>,
    level: Option<int>,
    experience: Option<int>,
    totalSavings: Option<int>,
    monthlyTarget: Option<int>,
    picture: Option<string>,
    loginType: Option<LoginType>,
    role: Option<string>)

  const EMPTY_PATCH: UserPatch := UserPatch(None, None, None, None, None, None, None, None, None, None, None)

  function Pick<T>(patch: Option<T>, own: T): T
  {
    if patch.Some? then patch.value else own
  }

  /** `{ ...user, ...patch }`. */
  function Merge(user: User, patch: UserPatch): User
  {
    User(
      Pick(patch.id, user.id),
      Pick(patch.email, user.email),
      Pick(patch.nickname, user.nickname),
      Pick(patch.username, user.username),
      Pick(patch.level, user.level),
      Pick(patch.experience, user.experience),
      Pick(patch.totalSavings, user.totalSavings),
      Pick(patch.monthlyTarget, user.monthlyTarget),
      if patch.picture.Some? then patch.picture else user.picture,
      Pick(patch.loginType, user.loginType),
      Pick(patch.role, user.role))
  }

  /** Spreading an empty patch copies the user; spreading a patch twice is
      the same as once; a patch naming a field decides that field. */
  lemma MergeProperties(user: User, patch: UserPatch)
    ensures Merge(user, EMPTY_PATCH) == user
    ensures Merge(Merge(user, patch), patch) == Merge(user, patch)
    ensures patch.nickname.Some? ==> Merge(user, patch).nickname == patch.nickname.value
    ensures patch.nickname.None? ==> Merge(user, patch).nickname == user.nickname
  {
  }

  datatype CategoryStats = CategoryStats(category: string, amount: int, count: int)

  /** `{ totalAmount?, count?, data? }` as returned by the today/month queries. */
  datatype RecordInfo = RecordInfo(totalAmount: Option<int>, count: Option<int>, data: Option<seq<Record>>)
}
