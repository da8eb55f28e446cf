/**
 * Listing users: the query of app/repository/db/users.sql.go, the repository
 * method around it and the page arithmetic of app/models/pagination.go.
 */
module UserListing {
  import opened Clock
  import opened Wrappers
  import opened Ordering
  import LikeSearch
  import FloatCeiling

  datatype Role = RoleUser | RoleAdmin

  /** emailKey and nameKey are the collation keys of the two texts: their order is the database's order. */
  datatype User = User(
    id: Uuid, email: string, fullName: string, role: Role, active: bool,
    createdAt: Time, updatedAt: Time, emailKey: seq<int>, nameKey: seq<int>)

  // ---- ORDER BY ------------------------------------------------------------------------

  datatype Value = Stamp(t: Time) | Text(key: seq<int>)

  predicate LexLess(a: seq<int>, b: seq<int>) {
    b != [] && (a == [] || a[0] < b[0] || (a[0] == b[0] && LexLess(a[1..], b[1..])))
  }

  predicate ValueLess(a: Value, b: Value) {
    match (a, b)
    case (Stamp(x), Stamp(y)) => x < y
    case (Text(x), Text(y)) => LexLess(x, y)
    case (Stamp(_), Text(_)) => true
    case (Text(_), Stamp(_)) => false
  }

  /** One ORDER BY expression of a row: a CASE that does not apply is NULL. */
  datatype SortKey = SortKey(value: Option<Value>, desc: bool)

  function Case(applies: bool, v: Value, desc: bool): SortKey {
    SortKey(if applies then Some(v) else None, desc)
  }

  function CaseKeys(sortBy: string, order: string, u: User): seq<SortKey> {
    [ Case(sortBy == "created_at" && order == "asc", Stamp(u.createdAt), false),
      Case(sortBy == "created_at" && order == "desc", Stamp(u.createdAt), true),
      Case(sortBy == "updated_at" && order == "asc", Stamp(u.updatedAt), false),
      Case(sortBy == "updated_at" && order == "desc", Stamp(u.updatedAt), true),
      Case(sortBy == "email" && order == "asc", Text(u.emailKey), false),
      Case(sortBy == "email" && order == "desc", Text(u.emailKey), true),
      Case(sortBy == "full_name" && order == "asc", Text(u.nameKey), false),
      Case(sortBy == "full_name" && order == "desc", Text(u.nameKey), true) ]
  }

  /** NULLs come last when ascending and first when descending. */
  predicate KeyBefore(a: SortKey, b: SortKey) {
    match (a.value, b.value)
    case (None, None) => false
    case (None, Some(_)) => a.desc
    case (Some(_), None) => !a.desc
    case (Some(x), Some(y)) => if a.desc then ValueLess(y, x) else ValueLess(x, y)
  }

  predicate KeysBefore(a: seq<SortKey>, b: seq<SortKey>, idA: Uuid, idB: Uuid)
    requires |a| == |b|
  {
    if a == [] then idA < idB
    else KeyBefore(a[0], b[0]) || (!KeyBefore(b[0], a[0]) && KeysBefore(a[1..], b[1..], idA, idB))
  }

  /** The order the query asks for: eight CASE expressions, then the id. */
  predicate SqlBefore(sortBy: string, order: string, a: User, b: User) {
    KeysBefore(CaseKeys(sortBy, order, a), CaseKeys(sortBy, order, b), a.id, b.id)
  }

  predicate Whitelisted(sortBy: string) {
    sortBy == "created_at" || sortBy == "updated_at" || sortBy == "email" || sortBy == "full_name"
  }

  predicate ValidOrder(order: string) {
    order == "asc" || order == "desc"
  }

  function Column(sortBy: string, u: User): Value
    requires Whitelisted(sortBy)
  {
    if sortBy == "created_at" then Stamp(u.createdAt)
    else if sortBy == "updated_at" then Stamp(u.updatedAt)
    else if sortBy == "email" then Text(u.emailKey)
    else Text(u.nameKey)
  }

  /** The chosen column in the chosen direction, then the id. */
  predicate ColumnThenId(sortBy: string, order: string, a: User, b: User)
    requires Whitelisted(sortBy)
  {
    var x, y := Column(sortBy, a), Column(sortBy, b);
    if x == y then a.id < b.id
    else if order == "asc" then ValueLess(x, y)
    else ValueLess(y, x)
  }

  lemma {:induction false} LexIsTotal(a: seq<int>, b: seq<int>)
    ensures LexLess(a, b) ==> !LexLess(b, a) && a != b
    ensures a != b ==> LexLess(a, b) || LexLess(b, a)
  {
    if a != [] && b != [] && a[0] == b[0] {
      LexIsTotal(a[1..], b[1..]);
      assert a == [a[0]] + a[1..] && b == [b[0]] + b[1..];
    }
  }

  lemma {:induction false} LexIsTransitive(a: seq<int>, b: seq<int>, c: seq<int>)
    requires LexLess(a, b) && LexLess(b, c)
    ensures LexLess(a, c)
  {
    if a != [] && a[0] == b[0] && b[0] == c[0] {
      LexIsTransitive(a[1..], b[1..], c[1..]);
    }
  }

  lemma ValueIsTotal(a: Value, b: Value)
    ensures ValueLess(a, b) ==> !ValueLess(b, a) && a != b
    ensures a != b ==> ValueLess(a, b) || ValueLess(b, a)
  {
    if a.Text? && b.Text? {
      LexIsTotal(a.key, b.key);
    }
  }

  lemma ValueIsTransitive(a: Value, b: Value, c: Value)
    requires ValueLess(a, b) && ValueLess(b, c)
    ensures ValueLess(a, c)
  {
    if a.Text? && b.Text? && c.Text? {
      LexIsTransitive(a.key, b.key, c.key);
    }
  }

  /** Keys on which the two rows tie can be dropped. */
  lemma {:induction false} SkipTies(a: seq<SortKey>, b: seq<SortKey>, n: nat, idA: Uuid, idB: Uuid)
    requires n <= |a| == |b|
    requires forall i :: 0 <= i < n ==> !KeyBefore(a[i], b[i]) && !KeyBefore(b[i], a[i])
    ensures KeysBefore(a, b, idA, idB) <==> KeysBefore(a[n..], b[n..], idA, idB)
  {
    if n > 0 {
      assert a[1..][n - 1..] == a[n..] && b[1..][n - 1..] == b[n..];
      SkipTies(a[1..], b[1..], n - 1, idA, idB);
    }
  }

  /** Where the only key that is not NULL stands among the eight. */
  function KeyIndex(sortBy: string, order: string): nat
    requires Whitelisted(sortBy) && ValidOrder(order)
  {
    (if sortBy == "created_at" then 0 else if sortBy == "updated_at" then 2 else if sortBy == "email" then 4 else 6)
    + (if order == "asc" then 0 else 1)
  }

  lemma NamesDiffer()
    ensures "created_at" != "updated_at" && "created_at" != "email" && "created_at" != "full_name"
    ensures "updated_at" != "email" && "updated_at" != "full_name" && "email" != "full_name" && "asc" != "desc"
  {
    assert "created_at"[0] == 'c' && "updated_at"[0] == 'u' && "email"[0] == 'e' && "full_name"[0] == 'f';
    assert "asc"[0] == 'a' && "desc"[0] == 'd';
  }

  /** Exactly one of the eight CASE expressions applies: the one for the chosen column and direction. */
  lemma OneCaseApplies(sortBy: string, order: string, u: User)
    requires Whitelisted(sortBy) && ValidOrder(order)
    ensures var n := KeyIndex(sortBy, order);
      CaseKeys(sortBy, order, u)[n] == SortKey(Some(Column(sortBy, u)), order == "desc")
    ensures forall i :: 0 <= i < 8 && i != KeyIndex(sortBy, order) ==> CaseKeys(sortBy, order, u)[i].value == None
  {
    NamesDiffer();
  }

  lemma OneKeyDecides(a: seq<SortKey>, b: seq<SortKey>, n: nat, idA: Uuid, idB: Uuid)
    requires n < |a| == |b|
    requires forall i :: 0 <= i < |a| && i != n ==> a[i].value == None && b[i].value == None
    ensures KeysBefore(a, b, idA, idB) <==> KeyBefore(a[n], b[n]) || (!KeyBefore(b[n], a[n]) && idA < idB)
  {
    SkipTies(a, b, n, idA, idB);
    assert a[n..][1..] == a[n + 1..] && b[n..][1..] == b[n + 1..];
    SkipTies(a[n + 1..], b[n + 1..], |a| - n - 1, idA, idB);
  }

  /** For every sort the handlers let through, the eight CASE expressions amount to one column and the id. */
  lemma CasesCollapse(sortBy: string, order: string, a: User, b: User)
    requires Whitelisted(sortBy) && ValidOrder(order)
    ensures SqlBefore(sortBy, order, a, b) <==> ColumnThenId(sortBy, order, a, b)
  {
    NamesDiffer();
    OneCaseApplies(sortBy, order, a);
    OneCaseApplies(sortBy, order, b);
    OneKeyDecides(CaseKeys(sortBy, order, a), CaseKeys(sortBy, order, b), KeyIndex(sortBy, order), a.id, b.id);
    ValueIsTotal(Column(sortBy, a), Column(sortBy, b));
    ValueIsTotal(Column(sortBy, b), Column(sortBy, a));
  }

  /** ... which is a strict total order on rows with distinct ids. */
  lemma SqlOrderIsStrictAndTotal(sortBy: string, order: string, a: User, b: User, c: User)
    requires Whitelisted(sortBy) && ValidOrder(order)
    ensures !SqlBefore(sortBy, order, a, a)
    ensures SqlBefore(sortBy, order, a, b) && SqlBefore(sortBy, order, b, c) ==> SqlBefore(sortBy, order, a, c)
    ensures a.id != b.id ==> SqlBefore(sortBy, order, a, b) || SqlBefore(sortBy, order, b, a)
  {
    CasesCollapse(sortBy, order, a, a);
    CasesCollapse(sortBy, order, a, b);
    CasesCollapse(sortBy, order, b, a);
    CasesCollapse(sortBy, order, b, c);
    CasesCollapse(sortBy, order, a, c);
    var x, y, z := Column(sortBy, a), Column(sortBy, b), Column(sortBy, c);
    ValueIsTotal(x, y);
    ValueIsTotal(y, x);
    ValueIsTotal(z, x);
    if ValueLess(x, y) && ValueLess(y, z) { ValueIsTransitive(x, y, z); }
    if ValueLess(z, y) && ValueLess(y, x) { ValueIsTransitive(z, y, x); }
    ValueIsTotal(y, z);
  }

  /** Dictionary order: a proper prefix, or smaller at the first difference. */
  ghost predicate DictionaryBefore(a: seq<int>, b: seq<int>) {
    exists k :: DiffersAt(a, b, k)
  }

  predicate DiffersAt(a: seq<int>, b: seq<int>, k: int) {
    && 0 <= k <= |a| && k < |b| && a[..k] == b[..k]
    && (k == |a| || a[k] < b[k])
  }

  lemma {:induction false} LexIsDictionary(a: seq<int>, b: seq<int>)
    ensures LexLess(a, b) <==> DictionaryBefore(a, b)
  {
    if b != [] {
      if a == [] || a[0] < b[0] {
        assert DiffersAt(a, b, 0);
      } else {
        LexIsDictionary(a[1..], b[1..]);
        if a[0] == b[0] {
          assert forall k :: 0 <= k < |a| && k < |b| - 1 ==>
            (DiffersAt(a[1..], b[1..], k) <==> DiffersAt(a, b, k + 1)) by {
            forall k | 0 <= k < |a| && k < |b| - 1 ensures DiffersAt(a[1..], b[1..], k) <==> DiffersAt(a, b, k + 1) {
              LaterDifference(a, b, k);
            }
          }
          if k :| DiffersAt(a[1..], b[1..], k) {
            assert DiffersAt(a, b, k + 1);
          }
          if k :| DiffersAt(a, b, k) {
            assert DiffersAt(a[1..], b[1..], k - 1);
          }
        } else {
          forall k ensures !DiffersAt(a, b, k) { HeadsDecide(a, b, k); }
        }
      }
    }
  }

  lemma HeadsDecide(a: seq<int>, b: seq<int>, k: int)
    requires a != [] && b != [] && b[0] < a[0]
    ensures !DiffersAt(a, b, k)
  {
    assert 0 < k <= |a| && k < |b| ==> a[..k][0] == a[0] && b[..k][0] == b[0];
  }

  lemma LaterDifference(a: seq<int>, b: seq<int>, k: nat)
    requires k < |a| && k < |b| - 1 && a[0] == b[0]
    ensures DiffersAt(a[1..], b[1..], k) <==> DiffersAt(a, b, k + 1)
  {
    assert a[..k + 1] == [a[0]] + a[1..][..k] && b[..k + 1] == [b[0]] + b[1..][..k];
    assert a[1..][..k] == a[..k + 1][1..] && b[1..][..k] == b[..k + 1][1..];
  }

  /** The earlier row's column comes first in that direction, or the columns are equal and its id is not larger. */
  ghost predicate Sorted(sortBy: string, order: string, a: User, b: User)
    requires Whitelisted(sortBy)
  {
    if sortBy == "created_at" then SortedTimes(order, a.createdAt, b.createdAt, a.id, b.id)
    else if sortBy == "updated_at" then SortedTimes(order, a.updatedAt, b.updatedAt, a.id, b.id)
    else if sortBy == "email" then SortedTexts(order, a.emailKey, b.emailKey, a.id, b.id)
    else SortedTexts(order, a.nameKey, b.nameKey, a.id, b.id)
  }

  predicate SortedTimes(order: string, x: Time, y: Time, i: Uuid, j: Uuid) {
    (x == y && i <= j) || (if order == "asc" then x < y else y < x)
  }

  ghost predicate SortedTexts(order: string, x: seq<int>, y: seq<int>, i: Uuid, j: Uuid) {
    (x == y && i <= j) || (if order == "asc" then DictionaryBefore(x, y) else DictionaryBefore(y, x))
  }

  /** What a listing in the query's order looks like, column by column. */
  lemma ListingIsSorted(sortBy: string, order: string, s: seq<User>)
    requires Whitelisted(sortBy) && ValidOrder(order) && SqlOrdered(sortBy, order, s)
    ensures forall i, j :: 0 <= i < j < |s| ==> Sorted(sortBy, order, s[i], s[j])
  {
    forall i, j | 0 <= i < j < |s| ensures Sorted(sortBy, order, s[i], s[j]) {
      NotAfterIsSorted(sortBy, order, s[i], s[j]);
    }
  }

  lemma NotAfterIsSorted(sortBy: string, order: string, a: User, b: User)
    requires Whitelisted(sortBy) && ValidOrder(order) && !SqlBefore(sortBy, order, b, a)
    ensures Sorted(sortBy, order, a, b)
  {
    NamesDiffer();
    CasesCollapse(sortBy, order, b, a);
    ValueIsTotal(Column(sortBy, a), Column(sortBy, b));
    ValueIsTotal(Column(sortBy, b), Column(sortBy, a));
    LexIsDictionary(a.emailKey, b.emailKey);
    LexIsDictionary(b.emailKey, a.emailKey);
    LexIsDictionary(a.nameKey, b.nameKey);
    LexIsDictionary(b.nameKey, a.nameKey);
  }

  // ---- Page parameters -------------------------------------------------------------------

  const DEFAULT_LIMIT: int := 20
  const MAX_LIMIT: int := 100
  const TWO31: int := 0x8000_0000
  const TWO32: int := 0x1_0000_0000
  const TWO63: int := 0x8000_0000_0000_0000
  const TWO64: int := 0x1_0000_0000_0000_0000

  datatype PageParams = PageParams(page: int, limit: int, sort: string, order: string, search: string) {
    function Normalize(defaultSort: string): PageParams {
      PageParams(
        if page < 1 then 1 else page,
        if limit < 1 then DEFAULT_LIMIT else if limit > MAX_LIMIT then MAX_LIMIT else limit,
        if sort == "" then defaultSort else sort,
        if ValidOrder(order) then order else "desc",
        search)
    }

    /** int arithmetic is 64 bits wide and wraps. */
    function Offset(): int {
      if page < 1 then 0 else Wrap64((page - 1) * limit)
    }
  }

  /** Whatever arrives, the parameters used are in range, and parameters in range arrive unchanged. */
  lemma NormalizedIsInRange(p: PageParams, defaultSort: string)
    requires defaultSort != ""
    ensures p.Normalize(defaultSort) == p <==>
      p.page >= 1 && 1 <= p.limit <= MAX_LIMIT && p.sort != "" && ValidOrder(p.order)
    ensures p.Normalize(defaultSort).Normalize(defaultSort) == p.Normalize(defaultSort)
    ensures var n := p.Normalize(defaultSort);
      && n.page >= 1 && (p.page < 1 ==> n.page == 1) && (p.page >= 1 ==> n.page == p.page)
      && 1 <= n.limit <= 100 && (p.limit < 1 ==> n.limit == 20) && (p.limit > 100 ==> n.limit == 100)
      && (1 <= p.limit <= 100 ==> n.limit == p.limit)
      && n.sort == (if p.sort == "" then defaultSort else p.sort)
      && (p.order == "asc" || p.order == "desc" ==> n.order == p.order)
      && (p.order != "asc" && p.order != "desc" ==> n.order == "desc")
      && n.search == p.search
  {
    NamesDiffer();
  }

  function Wrap64(n: int): int {
    (n + TWO63) % TWO64 - TWO63
  }

  function Wrap32(n: int): int {
    (n + TWO31) % TWO32 - TWO31
  }

  /** Both are the congruent number of their width. */
  lemma WrapsAreCongruent(n: int)
    ensures -TWO31 <= Wrap32(n) < TWO31 && (Wrap32(n) - n) % TWO32 == 0
    ensures -TWO63 <= Wrap64(n) < TWO63 && (Wrap64(n) - n) % TWO64 == 0
  {
  }

  datatype PageMeta = PageMeta(page: int, limit: int, total: int, totalPages: int, hasNext: bool, hasPrev: bool)

  /** q is float64(total) / float64(limit). */
  ghost predicate IsFloat64Quotient(total: int, limit: int, q: real) {
    exists totalF: real, limitF: real :: IsRoundedQuotient(total, limit, totalF, limitF, q)
  }

  ghost predicate IsRoundedQuotient(total: int, limit: int, totalF: real, limitF: real, q: real) {
    && FloatCeiling.Rounds(total as real, totalF) && FloatCeiling.Rounds(limit as real, limitF)
    && limitF != 0.0 && FloatCeiling.Rounds(totalF / limitF, q)
  }

  lemma QuotientCeiling(total: int, limit: int, q: real)
    requires 0 <= total < FloatCeiling.LIMIT53 && limit >= 1 && IsFloat64Quotient(total, limit, q)
    ensures FloatCeiling.Ceil(q) == FloatCeiling.CeilDiv(total, limit)
  {
    var totalF: real, limitF: real :| IsRoundedQuotient(total, limit, totalF, limitF, q);
    FloatCeiling.CeilingIsExact(total, limit, totalF, limitF, q);
  }

  function MetaLimit(p: PageParams): int {
    if p.limit < 1 then DEFAULT_LIMIT else p.limit
  }

  function NewPageMeta(p: PageParams, total: int, q: real): PageMeta {
    var ceiling := FloatCeiling.Ceil(q);
    var totalPages := if ceiling < 1 then 1 else ceiling;
    PageMeta(p.page, MetaLimit(p), total, totalPages, p.page < totalPages, p.page > 1)
  }

  lemma TimesLimit(a: int, b: int, limit: int)
    requires limit >= 0 && a <= b
    ensures a * limit <= b * limit
  {
  }

  /** With n pages, page p has a successor iff rows remain after it. */
  lemma RowsRemain(page: int, n: int, limit: int, total: int)
    requires limit >= 1 && (n - 1) * limit < total <= n * limit
    ensures page < n <==> page * limit < total
  {
    if page < n {
      TimesLimit(page, n - 1, limit);
    } else {
      TimesLimit(n, page, limit);
    }
  }

  lemma RowsPrecede(page: int, limit: int)
    requires limit >= 1
    ensures page > 1 <==> 0 < (page - 1) * limit
  {
    if page > 1 {
      TimesLimit(1, page - 1, limit);
    } else {
      TimesLimit(page - 1, 0, limit);
    }
  }

  /** The page count is exact although it is computed in floating point, and there is a next page iff rows remain. */
  lemma MetaIsExact(p: PageParams, total: int, q: real)
    requires 0 <= total < FloatCeiling.LIMIT53 && p.page >= 1
    requires IsFloat64Quotient(total, MetaLimit(p), q)
    ensures var meta := NewPageMeta(p, total, q);
      && meta.page == p.page && meta.total == total && meta.totalPages >= 1
      && meta.limit == (if p.limit < 1 then 20 else p.limit)
      && (meta.hasNext <==> p.page * meta.limit < total) && (meta.hasPrev <==> 0 < (p.page - 1) * meta.limit)
      && total <= meta.totalPages * meta.limit
      && (meta.totalPages == 1 || (meta.totalPages - 1) * meta.limit < total)
  {
    var limit := MetaLimit(p);
    var n := FloatCeiling.CeilDiv(total, limit);
    QuotientCeiling(total, limit, q);
    FloatCeiling.CeilDivBounds(total, limit);
    FloatCeiling.FewPages(total, limit);
    RowsRemain(p.page, n, limit, total);
    RowsPrecede(p.page, limit);
    if n == 0 {
      TimesLimit(0, p.page, limit);
    }
  }

  // ---- The query ---------------------------------------------------------------------------

  datatype Criteria = Criteria(search: string, role: Option<Role>, active: Option<bool>)

  /** The WHERE clause, with the pattern built from the escaped search text, or no pattern for no text. */
  predicate Keeps(fold: char -> string, f: Criteria, u: User) {
    && (f.search == ""
        || LikeSearch.ILike(fold, u.email, "%" + LikeSearch.EscapeLike(f.search) + "%")
        || LikeSearch.ILike(fold, u.fullName, "%" + LikeSearch.EscapeLike(f.search) + "%"))
    && (f.role.None? || u.role == f.role.value)
    && (f.active.None? || u.active == f.active.value)
  }

  /** A search finds the users whose address or name contains the text, up to case. */
  lemma KeepsIsLiteral(fold: char -> string, f: Criteria, u: User)
    requires LikeSearch.SparesMetas(fold)
    ensures Keeps(fold, f, u) <==>
      && (LikeSearch.Contains(LikeSearch.FoldAll(fold, u.email), LikeSearch.FoldAll(fold, f.search))
          || LikeSearch.Contains(LikeSearch.FoldAll(fold, u.fullName), LikeSearch.FoldAll(fold, f.search)))
      && (f.role.None? || u.role == f.role.value)
      && (f.active.None? || u.active == f.active.value)
  {
    LikeSearch.SearchIsLiteral(fold, u.email, f.search);
    LikeSearch.SearchIsLiteral(fold, u.fullName, f.search);
    assert LikeSearch.OccursAt(LikeSearch.FoldAll(fold, u.email), "", 0);
  }

  function Selected(fold: char -> string, f: Criteria, table: seq<User>): seq<User> {
    Filter((u: User) => Keeps(fold, f, u), table)
  }

  ghost predicate SqlOrdered(sortBy: string, order: string, s: seq<User>) {
    Ordered((a: User, b: User) => SqlBefore(sortBy, order, a, b), s)
  }

  /** One of the row orders the database may choose for the query. */
  ghost predicate IsRowOrder(
      fold: char -> string, f: Criteria, sortBy: string, order: string, table: seq<User>, full: seq<User>) {
    multiset(full) == multiset(Selected(fold, f, table)) && SqlOrdered(sortBy, order, full)
  }

  function Min(a: int, b: int): int {
    if a < b then a else b
  }

  function Window(s: seq<User>, offset: nat, limit: nat): seq<User> {
    s[Min(offset, |s|)..Min(offset + limit, |s|)]
  }

  datatype SqlError = NegativeOffset

  /** A possible outcome of the query; offsets and limits travel as 32-bit integers. */
  ghost predicate Answers(
      fold: char -> string, f: Criteria, p: PageParams, table: seq<User>, out: Result<seq<User>, SqlError>) {
    if Wrap32(p.Offset()) < 0 || Wrap32(p.limit) < 0 then out == Err(NegativeOffset)
    else
      exists full ::
        IsRowOrder(fold, f, p.sort, p.order, table, full)
        && out == Ok(Window(full, Wrap32(p.Offset()), Wrap32(p.limit)))
  }

  ghost predicate DistinctIds(table: seq<User>) {
    forall i, j :: 0 <= i < j < |table| ==> table[i].id != table[j].id
  }

  /** The row order is determined: separate queries for separate pages see the same order. */
  lemma RowOrderIsUnique(fold: char -> string, f: Criteria, p: PageParams, table: seq<User>, a: seq<User>, b: seq<User>)
    requires Whitelisted(p.sort) && ValidOrder(p.order) && DistinctIds(table)
    requires IsRowOrder(fold, f, p.sort, p.order, table, a) && IsRowOrder(fold, f, p.sort, p.order, table, b)
    ensures a == b
  {
    var less := (x: User, y: User) => SqlBefore(p.sort, p.order, x, y);
    var keep := (u: User) => Keeps(fold, f, u);
    FilterKeeps(keep, table);
    forall x, y | x in a && y in a && x != y ensures less(x, y) || less(y, x) {
      SameElements(a, Filter(keep, table), x);
      SameElements(a, Filter(keep, table), y);
      var i :| 0 <= i < |table| && table[i] == x;
      var j :| 0 <= j < |table| && table[j] == y;
      assert x.id != y.id;
      SqlOrderIsStrictAndTotal(p.sort, p.order, x, y, x);
    }
    OrderIsUnique(less, a, b);
  }

  function Flatten(pages: seq<seq<User>>): seq<User> {
    if pages == [] then [] else Flatten(pages[..|pages| - 1]) + pages[|pages| - 1]
  }

  lemma NextWindow(full: seq<User>, offset: nat, limit: nat)
    ensures full[..Min(offset, |full|)] + Window(full, offset, limit) == full[..Min(offset + limit, |full|)]
  {
  }

  lemma {:induction false} WindowsTile(full: seq<User>, limit: nat, pages: seq<seq<User>>)
    requires AreWindows(full, limit, pages)
    ensures 0 <= |pages| * limit && Flatten(pages) == full[..Min(|pages| * limit, |full|)]
  {
    TimesLimit(0, |pages|, limit);
    if pages != [] {
      var n := |pages| - 1;
      WindowsTile(full, limit, pages[..n]);
      OneMore(n, limit);
      NextWindow(full, n * limit, limit);
    }
  }

  lemma OneMore(n: int, limit: int)
    ensures (n + 1) * limit == n * limit + limit
  {
  }

  lemma Wrap32IsExact(n: int)
    requires -TWO31 <= n < TWO31
    ensures Wrap32(n) == n && Wrap64(n) == n
  {
  }

  /** The answer for the offset and the limit that arrive is that window of the one row order. */
  lemma AnswerIsWindow(
      fold: char -> string, f: Criteria, p: PageParams, table: seq<User>, full: seq<User>,
      out: Result<seq<User>, SqlError>)
    requires Whitelisted(p.sort) && ValidOrder(p.order) && DistinctIds(table)
    requires Wrap32(p.Offset()) >= 0 && Wrap32(p.limit) >= 0
    requires IsRowOrder(fold, f, p.sort, p.order, table, full)
    ensures Answers(fold, f, p, table, out) <==> out == Ok(Window(full, Wrap32(p.Offset()), Wrap32(p.limit)))
  {
    if Answers(fold, f, p, table, out) {
      var other :|
        IsRowOrder(fold, f, p.sort, p.order, table, other)
        && out == Ok(Window(other, Wrap32(p.Offset()), Wrap32(p.limit)));
      RowOrderIsUnique(fold, f, p, table, full, other);
    }
  }

  /** The first pages' offsets fit, so page i is the i-th window of the one row order. */
  lemma PageIsWindow(
      fold: char -> string, f: Criteria, p: PageParams, table: seq<User>, full: seq<User>,
      out: Result<seq<User>, SqlError>)
    requires Whitelisted(p.sort) && ValidOrder(p.order) && DistinctIds(table)
    requires p.page >= 1 && 1 <= p.limit < TWO31 && (p.page - 1) * p.limit < TWO31
    requires IsRowOrder(fold, f, p.sort, p.order, table, full)
    requires Answers(fold, f, p, table, out)
    ensures 0 <= (p.page - 1) * p.limit && out == Ok(Window(full, (p.page - 1) * p.limit, p.limit))
  {
    SmallOffset(p);
    AnswerIsWindow(fold, f, p, table, full, out);
  }

  lemma SmallOffset(p: PageParams)
    requires p.page >= 1 && 1 <= p.limit < TWO31 && (p.page - 1) * p.limit < TWO31
    ensures 0 <= (p.page - 1) * p.limit && Wrap32(p.Offset()) == (p.page - 1) * p.limit && Wrap32(p.limit) == p.limit
  {
    TimesLimit(0, p.page - 1, p.limit);
    Wrap32IsExact((p.page - 1) * p.limit);
    Wrap32IsExact(p.limit);
  }

  ghost predicate Served(fold: char -> string, f: Criteria, p: PageParams, table: seq<User>, pages: seq<seq<User>>) {
    forall i :: 0 <= i < |pages| ==> Answers(fold, f, AtPage(p, i + 1), table, Ok(pages[i]))
  }

  function AtPage(p: PageParams, page: int): PageParams {
    p.(page := page)
  }

  ghost predicate AreWindows(full: seq<User>, limit: nat, pages: seq<seq<User>>) {
    forall i :: 0 <= i < |pages| ==> 0 <= i * limit && pages[i] == Window(full, i * limit, limit)
  }

  /**
   * Over a fixed table the pages 1 to TotalPages, each fetched by a query of
   * its own, concatenate to the whole filtered list in order: no row is lost
   * and none is repeated.
   */
  lemma PagesPartition(
      fold: char -> string, f: Criteria, p: PageParams, table: seq<User>, pages: seq<seq<User>>, q: real)
    requires Whitelisted(p.sort) && ValidOrder(p.order) && DistinctIds(table)
    requires 1 <= p.limit <= MAX_LIMIT && |Selected(fold, f, table)| <= TWO31
    requires IsFloat64Quotient(|Selected(fold, f, table)|, p.limit, q)
    requires |pages| == NewPageMeta(p, |Selected(fold, f, table)|, q).totalPages
    requires Served(fold, f, p, table, pages)
    ensures multiset(Flatten(pages)) == multiset(Selected(fold, f, table))
    ensures SqlOrdered(p.sort, p.order, Flatten(pages))
  {
    PagesCover(p, |Selected(fold, f, table)|, q);
    EnoughPagesPartition(fold, f, p, table, pages);
  }

  lemma EnoughPagesPartition(fold: char -> string, f: Criteria, p: PageParams, table: seq<User>, pages: seq<seq<User>>)
    requires Whitelisted(p.sort) && ValidOrder(p.order) && DistinctIds(table) && 1 <= p.limit <= MAX_LIMIT
    requires |pages| >= 1 && |Selected(fold, f, table)| <= |pages| * p.limit
    requires |pages| == 1 || (|pages| - 1) * p.limit < TWO31
    requires Served(fold, f, p, table, pages)
    ensures multiset(Flatten(pages)) == multiset(Selected(fold, f, table))
    ensures SqlOrdered(p.sort, p.order, Flatten(pages))
  {
    var full := SomeOrder(fold, f, p, table, pages);
    PagesAreWindows(fold, f, p, table, full, pages);
    WindowsCover(full, p.limit, pages);
  }

  lemma WindowsCover(full: seq<User>, limit: nat, pages: seq<seq<User>>)
    requires AreWindows(full, limit, pages) && |full| <= |pages| * limit
    ensures Flatten(pages) == full
  {
    WindowsTile(full, limit, pages);
    assert full[..|full|] == full;
  }

  lemma PagesCover(p: PageParams, total: int, q: real)
    requires 1 <= p.limit <= MAX_LIMIT && 0 <= total <= TWO31 && IsFloat64Quotient(total, p.limit, q)
    ensures var n := NewPageMeta(p, total, q).totalPages;
      n >= 1 && total <= n * p.limit && (n == 1 || (n - 1) * p.limit < TWO31)
  {
    MetaIsExact(AtPage(p, 1), total, q);
  }

  lemma PagesAreWindows(
      fold: char -> string, f: Criteria, p: PageParams, table: seq<User>, full: seq<User>, pages: seq<seq<User>>)
    requires Whitelisted(p.sort) && ValidOrder(p.order) && DistinctIds(table) && 1 <= p.limit <= MAX_LIMIT
    requires |pages| == 1 || (|pages| - 1) * p.limit < TWO31
    requires IsRowOrder(fold, f, p.sort, p.order, table, full) && Served(fold, f, p, table, pages)
    ensures AreWindows(full, p.limit, pages)
  {
    forall i | 0 <= i < |pages| ensures 0 <= i * p.limit && pages[i] == Window(full, i * p.limit, p.limit) {
      assert Answers(fold, f, AtPage(p, i + 1), table, Ok(pages[i]));
      PageIsIth(fold, f, p, table, full, |pages|, i, pages[i]);
    }
  }

  lemma PageIsIth(
      fold: char -> string, f: Criteria, p: PageParams, table: seq<User>, full: seq<User>, n: int, i: int,
      rows: seq<User>)
    requires Whitelisted(p.sort) && ValidOrder(p.order) && DistinctIds(table) && 1 <= p.limit <= MAX_LIMIT
    requires 0 <= i < n && (n == 1 || (n - 1) * p.limit < TWO31)
    requires IsRowOrder(fold, f, p.sort, p.order, table, full)
    requires Answers(fold, f, AtPage(p, i + 1), table, Ok(rows))
    ensures 0 <= i * p.limit && rows == Window(full, i * p.limit, p.limit)
  {
    PageAt(fold, f, AtPage(p, i + 1), table, full, n, rows);
  }

  lemma PageAt(
      fold: char -> string, f: Criteria, p: PageParams, table: seq<User>, full: seq<User>, n: int,
      rows: seq<User>)
    requires Whitelisted(p.sort) && ValidOrder(p.order) && DistinctIds(table)
    requires 1 <= p.page <= n && 1 <= p.limit <= MAX_LIMIT
    requires n == 1 || (n - 1) * p.limit < TWO31
    requires IsRowOrder(fold, f, p.sort, p.order, table, full) && Answers(fold, f, p, table, Ok(rows))
    ensures 0 <= (p.page - 1) * p.limit && rows == Window(full, (p.page - 1) * p.limit, p.limit)
  {
    TimesLimit(p.page - 1, n - 1, p.limit);
    PageIsWindow(fold, f, p, table, full, Ok(rows));
  }

  lemma SomeOrder(
      fold: char -> string, f: Criteria, p: PageParams, table: seq<User>, pages: seq<seq<User>>)
    returns (full: seq<User>)
    requires 1 <= p.limit <= MAX_LIMIT && pages != [] && Served(fold, f, p, table, pages)
    ensures |full| == |Selected(fold, f, table)|
    ensures IsRowOrder(fold, f, p.sort, p.order, table, full)
  {
    var first := AtPage(p, 1);
    assert Answers(fold, f, first, table, Ok(pages[0]));
    Wrap32IsExact(0 * p.limit);
    Wrap32IsExact(p.limit);
    full :| IsRowOrder(fold, f, first.sort, first.order, table, full);
    assert |full| == |multiset(full)|;
  }

  /** Such queries and pages always exist: the database can order any table, and every quotient rounds. */
  lemma PagesExist(
      fold: char -> string, f: Criteria, p: PageParams, table: seq<User>) returns (pages: seq<seq<User>>, q: real)
    requires Whitelisted(p.sort) && ValidOrder(p.order)
    requires 1 <= p.limit <= MAX_LIMIT && |Selected(fold, f, table)| <= TWO31
    ensures IsFloat64Quotient(|Selected(fold, f, table)|, p.limit, q)
    ensures |pages| == NewPageMeta(p, |Selected(fold, f, table)|, q).totalPages
    ensures Served(fold, f, p, table, pages)
  {
    var total := |Selected(fold, f, table)|;
    q := FloatCeiling.QuotientExists(total, p.limit);
    assert IsRoundedQuotient(total, p.limit, total as real, p.limit as real, q);
    PagesCover(p, total, q);
    pages := ServedPages(fold, f, p, table, NewPageMeta(p, total, q).totalPages);
  }

  lemma ServedPages(
      fold: char -> string, f: Criteria, p: PageParams, table: seq<User>, n: int) returns (pages: seq<seq<User>>)
    requires Whitelisted(p.sort) && ValidOrder(p.order) && 1 <= p.limit <= MAX_LIMIT
    requires n >= 1 && (n == 1 || (n - 1) * p.limit < TWO31)
    ensures |pages| == n && Served(fold, f, p, table, pages)
  {
    var full := RowOrderExists(fold, f, p.sort, p.order, table);
    pages := seq(n, i requires 0 <= i < n => WindowAt(full, i, p.limit));
    forall i | 0 <= i < |pages| ensures Answers(fold, f, AtPage(p, i + 1), table, Ok(pages[i])) {
      assert pages[i] == WindowAt(full, i, p.limit);
      IthIsServed(fold, f, p, table, full, n, i);
    }
  }

  function WindowAt(full: seq<User>, i: nat, limit: nat): seq<User> {
    Window(full, i * limit, limit)
  }

  lemma IthIsServed(
      fold: char -> string, f: Criteria, p: PageParams, table: seq<User>, full: seq<User>, n: int, i: nat)
    requires 1 <= p.limit <= MAX_LIMIT && i < n && (n == 1 || (n - 1) * p.limit < TWO31)
    requires IsRowOrder(fold, f, p.sort, p.order, table, full)
    ensures Answers(fold, f, AtPage(p, i + 1), table, Ok(WindowAt(full, i, p.limit)))
  {
    TimesLimit(0, i, p.limit);
    TimesLimit(i, n - 1, p.limit);
    PageServed(fold, f, AtPage(p, i + 1), table, full, i);
  }

  lemma PageServed(fold: char -> string, f: Criteria, p: PageParams, table: seq<User>, full: seq<User>, i: int)
    requires p.page == i + 1 >= 1 && 1 <= p.limit <= MAX_LIMIT && 0 <= i * p.limit < TWO31
    requires IsRowOrder(fold, f, p.sort, p.order, table, full)
    ensures Answers(fold, f, p, table, Ok(Window(full, i * p.limit, p.limit)))
  {
    Wrap32IsExact(i * p.limit);
    Wrap32IsExact(p.limit);
    WindowAnswers(fold, f, p, table, full);
  }

  lemma SqlOrderIsWeak(sortBy: string, order: string)
    requires Whitelisted(sortBy) && ValidOrder(order)
    ensures Weak((a: User, b: User) => SqlBefore(sortBy, order, a, b))
  {
    forall x: User, y: User | SqlBefore(sortBy, order, x, y) ensures !SqlBefore(sortBy, order, y, x) {
      SqlOrderIsStrictAndTotal(sortBy, order, x, y, x);
    }
    forall x: User, y: User, z: User | !SqlBefore(sortBy, order, y, x) && !SqlBefore(sortBy, order, z, y)
      ensures !SqlBefore(sortBy, order, z, x)
    {
      CasesCollapse(sortBy, order, y, x);
      CasesCollapse(sortBy, order, z, y);
      CasesCollapse(sortBy, order, z, x);
      NegationIsTransitive(sortBy, order, x, y, z);
    }
  }

  lemma NegationIsTransitive(sortBy: string, order: string, x: User, y: User, z: User)
    requires Whitelisted(sortBy) && ValidOrder(order)
    requires !ColumnThenId(sortBy, order, y, x) && !ColumnThenId(sortBy, order, z, y)
    ensures !ColumnThenId(sortBy, order, z, x)
  {
    var a, b, c := Column(sortBy, x), Column(sortBy, y), Column(sortBy, z);
    ValueIsTotal(a, b);
    ValueIsTotal(b, c);
    ValueIsTotal(a, c);
    ValueIsTotal(c, a);
    if ValueLess(a, b) && ValueLess(b, c) { ValueIsTransitive(a, b, c); }
    if ValueLess(c, b) && ValueLess(b, a) { ValueIsTransitive(c, b, a); }
  }

  lemma RowOrderExists(
      fold: char -> string, f: Criteria, sortBy: string, order: string, table: seq<User>) returns (full: seq<User>)
    requires Whitelisted(sortBy) && ValidOrder(order)
    ensures IsRowOrder(fold, f, sortBy, order, table, full)
  {
    var less := (a: User, b: User) => SqlBefore(sortBy, order, a, b);
    SqlOrderIsWeak(sortBy, order);
    SortSorts(less, Selected(fold, f, table));
    full := Sort(less, Selected(fold, f, table));
  }

  /** Pages before the first show the first. */
  lemma EarlyPagesShowTheFirst(fold: char -> string, f: Criteria, p: PageParams, table: seq<User>)
    requires p.page < 1
    ensures SameAnswers(fold, f, p, AtPage(p, 1), table)
  {
    assert AtPage(p, 1).Offset() == Wrap64(0) == 0 == p.Offset();
  }

  /** The offset reaches the database unchanged iff it is below 2^31. */
  lemma OffsetIsFaithful(p: PageParams)
    requires 1 <= p.page < TWO63 && 1 <= p.limit <= MAX_LIMIT
    ensures Wrap32(p.Offset()) == (p.page - 1) * p.limit <==> (p.page - 1) * p.limit < TWO31
  {
    TimesLimit(0, p.page - 1, p.limit);
    if (p.page - 1) * p.limit < TWO31 {
      Wrap32IsExact((p.page - 1) * p.limit);
    }
  }

  ghost predicate SameAnswers(fold: char -> string, f: Criteria, p: PageParams, p': PageParams, table: seq<User>) {
    forall out :: Answers(fold, f, p, table, out) <==> Answers(fold, f, p', table, out)
  }

  lemma WrapsAlike(n: int)
    requires 0 <= n < TWO63
    ensures Wrap64(n) == n && (Wrap32(n) == 0 <==> n % TWO32 == 0)
  {
  }

  lemma {:induction false} DistinctRowsCountOnce(table: seq<User>, u: User)
    requires DistinctIds(table)
    ensures multiset(table)[u] <= 1
  {
    if table != [] {
      DistinctRowsCountOnce(table[1..], u);
      assert table == [table[0]] + table[1..];
      assert forall j :: 0 <= j < |table[1..]| ==> table[1..][j].id == table[j + 1].id != table[0].id;
      assert multiset(table[1..])[table[0]] == 0;
    }
  }

  lemma RepeatsCountTwice(rows: seq<User>, i: nat)
    requires 0 < i < |rows|
    ensures rows[i] == rows[0] ==> multiset(rows)[rows[0]] >= 2
  {
    assert rows == [rows[0]] + rows[1..];
    assert rows[1..][i - 1] in multiset(rows[1..]);
  }

  lemma RowsDiffer(
      fold: char -> string, f: Criteria, sortBy: string, order: string, table: seq<User>, full: seq<User>, i: nat)
    requires DistinctIds(table) && IsRowOrder(fold, f, sortBy, order, table, full) && 0 < i < |full|
    ensures full[i] != full[0]
  {
    DistinctRowsCountOnce(table, full[0]);
    FilterCounts((u: User) => Keeps(fold, f, u), table, full[0]);
    RepeatsCountTwice(full, i);
  }

  /** A window that starts further down shows other rows. */
  lemma WindowsDiffer(
      fold: char -> string, f: Criteria, sortBy: string, order: string, table: seq<User>, full: seq<User>,
      offset: nat, limit: nat)
    requires DistinctIds(table) && IsRowOrder(fold, f, sortBy, order, table, full) && full != [] && limit >= 1
    ensures Window(full, offset, limit) == Window(full, 0, limit) <==> offset == 0
  {
    var first, shifted := Window(full, 0, limit), Window(full, offset, limit);
    assert first[0] == full[0];
    if 0 < offset < |full| {
      RowsDiffer(fold, f, sortBy, order, table, full, offset);
      assert shifted[0] == full[offset];
    }
  }

  /**
   * Beyond that, exactly the pages whose offset is a multiple of 2^32 show the
   * first rows again, whatever the filter, as long as any row is selected.
   */
  lemma FarPageRepeatsTheFirst(fold: char -> string, f: Criteria, p: PageParams, table: seq<User>)
    requires Whitelisted(p.sort) && ValidOrder(p.order) && DistinctIds(table) && Selected(fold, f, table) != []
    requires p.page >= 1 && 1 <= p.limit <= MAX_LIMIT && (p.page - 1) * p.limit < TWO63
    ensures SameAnswers(fold, f, p, AtPage(p, 1), table) <==> (p.page - 1) * p.limit % TWO32 == 0
  {
    var first := AtPage(p, 1);
    TimesLimit(0, p.page - 1, p.limit);
    WrapsAlike((p.page - 1) * p.limit);
    SmallOffset(first);
    Wrap32IsExact(p.limit);
    var full := RowOrderExists(fold, f, p.sort, p.order, table);
    assert full != [] by {
      assert |multiset(full)| == |full|;
    }
    SameAnswersIff(fold, f, p, first, table, full);
    if Wrap32(p.Offset()) >= 0 {
      WindowsDiffer(fold, f, p.sort, p.order, table, full, Wrap32(p.Offset()), p.limit);
    }
  }

  lemma SameAnswersIff(
      fold: char -> string, f: Criteria, p: PageParams, first: PageParams, table: seq<User>, full: seq<User>)
    requires Whitelisted(p.sort) && ValidOrder(p.order) && DistinctIds(table)
    requires first.sort == p.sort && first.order == p.order && first.limit == p.limit
    requires Wrap32(p.limit) == p.limit >= 1 && Wrap32(first.Offset()) == 0
    requires IsRowOrder(fold, f, p.sort, p.order, table, full)
    ensures SameAnswers(fold, f, p, first, table) <==>
      Wrap32(p.Offset()) >= 0 && Window(full, Wrap32(p.Offset()), p.limit) == Window(full, 0, p.limit)
  {
    forall out ensures Answers(fold, f, first, table, out) <==> out == Ok(Window(full, 0, p.limit)) {
      AnswerIsWindow(fold, f, first, table, full, out);
    }
    if Wrap32(p.Offset()) >= 0 {
      forall out ensures Answers(fold, f, p, table, out) <==> out == Ok(Window(full, Wrap32(p.Offset()), p.limit)) {
        AnswerIsWindow(fold, f, p, table, full, out);
      }
      assert Answers(fold, f, first, table, Ok(Window(full, 0, p.limit)));
    } else {
      assert !Answers(fold, f, p, table, Ok(Window(full, 0, p.limit)));
    }
  }

  /** There are such pages: for one, page 67108865 of 64 rows each. */
  lemma SomeFarPageRepeats(fold: char -> string, f: Criteria, sortBy: string, order: string, table: seq<User>)
    requires Whitelisted(sortBy) && ValidOrder(order) && DistinctIds(table) && Selected(fold, f, table) != []
    ensures var p := PageParams(0x400_0001, 64, sortBy, order, f.search); SameAnswers(fold, f, p, AtPage(p, 1), table)
  {
    FarPageRepeatsTheFirst(fold, f, PageParams(0x400_0001, 64, sortBy, order, f.search), table);
  }

  // ---- The repository method -----------------------------------------------------------------

  datatype DomainUser = DomainUser(
      id: Uuid, email: string, fullName: string, role: Role, active: bool, createdAt: Time, updatedAt: Time)

  function ToDomainUser(row: User): DomainUser {
    DomainUser(row.id, row.email, row.fullName, row.role, row.active, row.createdAt, row.updatedAt)
  }

  predicate SameUser(row: User, user: DomainUser) {
    && user.id == row.id && user.email == row.email && user.fullName == row.fullName && user.role == row.role
    && user.active == row.active && user.createdAt == row.createdAt && user.updatedAt == row.updatedAt
  }

  ghost predicate Converted(rows: seq<User>, users: seq<DomainUser>) {
    |users| == |rows| && forall i :: 0 <= i < |rows| ==> SameUser(rows[i], users[i])
  }

  /** The users are a possible answer of the query, row by row. */
  ghost predicate IsPage(fold: char -> string, f: Criteria, p: PageParams, table: seq<User>, users: seq<DomainUser>) {
    exists rows :: Answers(fold, f, p, table, Ok(rows)) && Converted(rows, users)
  }

  /** The repository's List, for the row order `full` that the database happens to choose. */
  method List(fold: char -> string, f: Criteria, p: PageParams, table: seq<User>, full: seq<User>)
    returns (r: Result<(seq<DomainUser>, int), SqlError>)
    requires IsRowOrder(fold, f, p.sort, p.order, table, full)
    requires p.page >= 1 && 1 <= p.limit <= MAX_LIMIT
    ensures r.Ok? ==> r.value.1 == |Selected(fold, f, table)| && IsPage(fold, f, p, table, r.value.0)
    ensures r.Ok? <==> Wrap32(p.Offset()) >= 0
    ensures (p.page - 1) * p.limit < TWO31 ==> r.Ok?
  {
    FirstOffsetsFit(p);
    var offset, limit := Wrap32(p.Offset()), Wrap32(p.limit);
    if offset < 0 || limit < 0 {
      return Err(NegativeOffset);
    }
    var rows := Window(full, offset, limit);
    WindowAnswers(fold, f, p, table, full);
    var users := [];
    for i := 0 to |rows|
      invariant |users| == i
      invariant forall k :: 0 <= k < i ==> users[k] == ToDomainUser(rows[k])
    {
      users := users + [ToDomainUser(rows[i])];
    }
    assert Converted(rows, users);
    return Ok((users, |full|));
  }

  lemma WindowAnswers(fold: char -> string, f: Criteria, p: PageParams, table: seq<User>, full: seq<User>)
    requires IsRowOrder(fold, f, p.sort, p.order, table, full) && Wrap32(p.Offset()) >= 0 && Wrap32(p.limit) >= 0
    ensures Answers(fold, f, p, table, Ok(Window(full, Wrap32(p.Offset()), Wrap32(p.limit))))
    ensures |full| == |Selected(fold, f, table)|
  {
    assert |full| == |multiset(full)|;
  }

  lemma FirstOffsetsFit(p: PageParams)
    requires 1 <= p.page && 1 <= p.limit <= MAX_LIMIT
    ensures Wrap32(p.limit) == p.limit && ((p.page - 1) * p.limit < TWO31 ==> Wrap32(p.Offset()) >= 0)
  {
    TimesLimit(0, p.page - 1, p.limit);
    Wrap32IsExact(p.limit);
    if (p.page - 1) * p.limit < TWO31 {
      Wrap32IsExact((p.page - 1) * p.limit);
    }
  }
}
