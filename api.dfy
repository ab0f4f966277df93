/**
  The catalog lookup of api.py (IgdbInfoCollector): the game id list is cut into
  chunks of at most 500, one POST body per chunk names the ids in a
  `where id = (…)` clause, each reply status is sorted into parse, retry or
  fail, and every catalog object found becomes one sparse game record appended
  to `results`.

  The catalog service is a parameter: `server(body)` is the sequence of replies
  it gives, attempt after attempt, to a POST carrying `body`. The source retries
  a throttled request without limit; here the retries stop when that sequence
  runs out.
*/
module Api {
  import opened Wrappers
  import opened Text
  import opened Seqs

  /** The service's maximum number of items per request, and the chunk size. */
  const Limit: nat := 500

  const Url: string := "https://api.igdb.com/v4/games"

  /** The field-selection clause every request body starts with. */
  const Fields: string :=
    "fields name,first_release_date,genres.name,collections.name,"
    + "involved_companies.company.name,involved_companies.*,platforms.name;"

  // ---------------------------------------------------------------------------
  // Chunks
  // ---------------------------------------------------------------------------

  function Min(a: int, b: int): int {
    if a <= b then a else b
  }

  /** The number of chunks: the number of starts 0, n, 2n, … below |ids|. */
  function ChunkCount(len: nat, n: nat): nat
    requires n > 0
  {
    (len + n - 1) / n
  }

  /** `ChunkCount` is the ceiling of `len / n`: the least count whose chunks of `n` cover `len` ids. */
  lemma ChunkCountBounds(len: nat, n: nat)
    requires n > 0
    ensures var q := ChunkCount(len, n);
            q * n >= len && (q == 0 || (q - 1) * n < len)
  {
    var q, r := (len + n - 1) / n, (len + n - 1) % n;
    assert len + n - 1 == q * n + r && r < n;
    assert (q - 1) * n == q * n - n;
  }

  lemma ChunkStartBelow(k: nat, n: nat, len: nat)
    requires n > 0 && k < ChunkCount(len, n)
    ensures k * n < len
  {
    var q := (len + n - 1) / n;
    assert (len + n - 1) == q * n + (len + n - 1) % n;
    assert k + 1 <= q;
    assert (k + 1) * n <= q * n by {
      MulMonotone(k + 1, q, n);
    }
  }

  lemma MulMonotone(a: nat, b: nat, n: nat)
    requires a <= b
    ensures a * n <= b * n
  {
  }

  lemma MulAtLeast(d: int, n: nat)
    requires d >= 1 && n > 0
    ensures d * n >= n
  {
  }

  /** Euclidean division has one quotient. */
  lemma DivUnique(a: nat, n: nat, q: nat, r: nat)
    requires n > 0 && a == q * n + r && r < n
    ensures a / n == q
  {
    var q', r' := a / n, a % n;
    assert a == q' * n + r';
    assert (q - q') * n == r' - r;
    if q > q' {
      MulAtLeast(q - q', n);
    } else if q < q' {
      assert (q' - q) * n == r - r';
      MulAtLeast(q' - q, n);
    }
  }

  /**
    `_chunkify_list(ids, n)`: the slices `ids[i:i + n]` for `i` in
    `range(0, len(ids), n)`.
  */
  function Chunkify(ids: seq<int>, n: nat): (chunks: seq<seq<int>>)
    requires n > 0
    ensures |chunks| == ChunkCount(|ids|, n)
    ensures |chunks| * n >= |ids| && (|chunks| == 0 || (|chunks| - 1) * n < |ids|)
  {
    ChunkCountBounds(|ids|, n);
    seq(ChunkCount(|ids|, n), k requires 0 <= k < ChunkCount(|ids|, n) =>
      ChunkStartBelow(k, n, |ids|);
      ids[k * n .. Min(k * n + n, |ids|)])
  }

  lemma ChunkCountStep(len: nat, n: nat)
    requires n > 0 && len > n
    ensures ChunkCount(len, n) == ChunkCount(len - n, n) + 1
  {
    var a := len - n + n - 1;
    assert a == (a / n) * n + a % n;
    DivUnique(a + n, n, a / n + 1, a % n);
  }

  /** Past the first chunk, the chunks are those of the rest of the list. */
  lemma ChunkifyUnfold(ids: seq<int>, n: nat)
    requires n > 0 && |ids| > n
    ensures Chunkify(ids, n) == [ids[..n]] + Chunkify(ids[n..], n)
  {
    var c := Chunkify(ids, n);
    var d := Chunkify(ids[n..], n);
    ChunkCountStep(|ids|, n);
    forall k | 1 <= k < |c|
      ensures c[k] == d[k - 1]
    {
      ChunkShift(ids, n, k);
    }
    assert c == [c[0]] + c[1..];
  }

  /** Chunk `k` is the slice `ids[k * n : k * n + n]`. */
  lemma ChunkAt(ids: seq<int>, n: nat, k: nat)
    requires n > 0 && k < ChunkCount(|ids|, n)
    ensures k * n < |ids|
    ensures Chunkify(ids, n)[k] == ids[k * n .. Min(k * n + n, |ids|)]
  {
    ChunkStartBelow(k, n, |ids|);
  }

  /** Chunk `k` of the list is chunk `k - 1` of the list without its first `n` ids. */
  lemma ChunkShift(ids: seq<int>, n: nat, k: nat)
    requires n > 0 && |ids| > n && 1 <= k < ChunkCount(|ids|, n)
    ensures ChunkCount(|ids| - n, n) == ChunkCount(|ids|, n) - 1
    ensures Chunkify(ids, n)[k] == Chunkify(ids[n..], n)[k - 1]
  {
    ChunkCountStep(|ids|, n);
    ChunkAt(ids, n, k);
    ChunkAt(ids[n..], n, k - 1);
    MulPred(k, n);
    DropSlice(ids, n, (k - 1) * n, Min((k - 1) * n + n, |ids| - n));
  }

  lemma MulPred(k: nat, n: nat)
    requires k >= 1
    ensures (k - 1) * n + n == k * n
  {
  }

  /** A slice of `ids[n..]` is the slice of `ids` shifted by `n`. */
  lemma DropSlice(ids: seq<int>, n: nat, lo: nat, hi: nat)
    requires n <= |ids| && lo <= hi <= |ids| - n
    ensures ids[n..][lo .. hi] == ids[n + lo .. n + hi]
  {
  }

  /** A list of at most `n` ids is one chunk, and the empty list none. */
  lemma ChunkifyShort(ids: seq<int>, n: nat)
    requires n > 0 && |ids| <= n
    ensures Chunkify(ids, n) == if ids == [] then [] else [ids]
  {
    if ids != [] {
      DivUnique(|ids| + n - 1, n, 1, |ids| - 1);
      var c := Chunkify(ids, n);
      assert |c| == 1;
      assert c[0] == ids[0 .. Min(0 * n + n, |ids|)];
      assert c[0] == ids;
      assert c == [ids];
    } else {
      DivUnique(n - 1, n, 0, n - 1);
    }
  }

  /** Concatenating the chunks gives back the id list exactly. */
  lemma {:induction false} ChunkifyFlatten(ids: seq<int>, n: nat)
    requires n > 0
    ensures Flatten(Chunkify(ids, n)) == ids
    decreases |ids|
  {
    if |ids| <= n {
      ChunkifyShort(ids, n);
      if ids != [] {
        assert Flatten([ids]) == ids + Flatten([]);
      }
    } else {
      ChunkifyUnfold(ids, n);
      ChunkifyFlatten(ids[n..], n);
      var c := Chunkify(ids, n);
      assert c[1..] == Chunkify(ids[n..], n);
      assert ids == ids[..n] + ids[n..];
    }
  }

  /** Every chunk but the last holds exactly `n` ids; the last is non-empty and holds at most `n`. */
  lemma {:induction false} ChunkifySizes(ids: seq<int>, n: nat)
    requires n > 0
    ensures var c := Chunkify(ids, n);
            && (ids == [] <==> c == [])
            && (forall k :: 0 <= k < |c| - 1 ==> |c[k]| == n)
            && (c != [] ==> 0 < |c[|c| - 1]| <= n)
    decreases |ids|
  {
    if |ids| <= n {
      ChunkifyShort(ids, n);
    } else {
      ChunkifyUnfold(ids, n);
      ChunkifySizes(ids[n..], n);
    }
  }

  /** The chunks sent for a list of ids: the whole list when it fits one request, else its chunks. */
  function Batches(ids: seq<int>): seq<seq<int>> {
    if |ids| > Limit then Chunkify(ids, Limit) else [ids]
  }

  /** The batches partition the id list: each id is sent in exactly one batch, in order. */
  lemma BatchesPartition(ids: seq<int>)
    ensures Flatten(Batches(ids)) == ids
    ensures forall k :: 0 <= k < |Batches(ids)| ==> |Batches(ids)[k]| <= Limit
  {
    if |ids| > Limit {
      ChunkifyFlatten(ids, Limit);
      ChunkifySizes(ids, Limit);
    } else {
      assert Flatten([ids]) == ids + Flatten([]);
    }
  }

  // ---------------------------------------------------------------------------
  // Request body
  // ---------------------------------------------------------------------------

  /**
    The items of `", ".join(map(repr, ids))` split at the commas: the first
    number, then each further number after its blank.
  */
  function TupleItems(ids: seq<int>): (items: seq<string>)
    ensures |items| == |ids|
  {
    seq(|ids|, k requires 0 <= k < |ids| => if k == 0 then IntRepr(ids[0]) else " " + IntRepr(ids[k]))
  }

  /** No item holds a comma, so splitting the joined items at the commas gives them back. */
  lemma TupleItemsNoComma(ids: seq<int>)
    ensures forall k :: 0 <= k < |ids| ==> ',' !in TupleItems(ids)[k]
  {
    forall k | 0 <= k < |ids|
      ensures ',' !in TupleItems(ids)[k]
    {
      IntReprChars(ids[k]);
    }
  }

  /** Python's `str(tuple(ids))`: `()`, `(7,)`, `(1, 2, 3)`. */
  function TupleRepr(ids: seq<int>): string {
    if |ids| == 0 then "()"
    else if |ids| == 1 then "(" + IntRepr(ids[0]) + ",)"
    else "(" + Join(TupleItems(ids), ',') + ")"
  }

  /** A one-digit number is written as its digit. */
  lemma SmallRepr(d: nat)
    requires d < 10
    ensures IntRepr(d) == [(48 + d) as char]
  {
  }

  /** Three ids render as `(1, 2, 3)`, one id as `(7,)`, no id as `()`. */
  lemma TupleReprExamples()
    ensures TupleRepr([1, 2, 3]) == "(1, 2, 3)"
    ensures TupleRepr([7]) == "(7,)"
    ensures TupleRepr([]) == "()"
  {
    ItemsExample();
    var items: seq<string> := ["1", " 2", " 3"];
    assert items[1..] == [" 2", " 3"] && items[1..][1..] == [" 3"];
    assert Join(items, ',') == "1, 2, 3";
    SmallRepr(7);
  }

  lemma ItemsExample()
    ensures TupleItems([1, 2, 3]) == ["1", " 2", " 3"]
  {
    SmallRepr(1);
    SmallRepr(2);
    SmallRepr(3);
    var items := TupleItems([1, 2, 3]);
    assert items[0] == "1" && items[1] == " 2" && items[2] == " 3";
  }

  /** The request body of `_fetch_info`: fields, the id filter and the limit clause. */
  function Body(ids: seq<int>): string {
    Fields + WhereClause(ids) + LimitClause()
  }

  /** `f'where id = {*game_ids, };'` */
  function WhereClause(ids: seq<int>): string {
    "where id = " + TupleRepr(ids) + ";"
  }

  /** `f'limit {LIMIT};'` */
  function LimitClause(): string {
    "limit " + IntRepr(Limit) + ";"
  }

  /** Reads every item of a tuple display as an integer. */
  function ParseItems(items: seq<string>): Option<seq<int>> {
    if items == [] then Some([])
    else
      var x := ParseInt(items[0]);
      var xs := ParseItems(items[1..]);
      if x.Some? && xs.Some? then Some([x.value] + xs.value) else None
  }

  /** Reads a Python tuple display of integers back into the integers. */
  function ParseTuple(s: string): Option<seq<int>> {
    if |s| < 2 || s[0] != '(' || s[|s| - 1] != ')' then None
    else
      var inner := s[1..|s| - 1];
      if inner == [] then Some([])
      else
        var items := Split(inner, ',');
        if |items| == 2 && items[1] == [] then
          match ParseInt(items[0])
          case Some(x) => Some([x])
          case None => None
        else ParseItems(items)
  }

  /**
    How the catalog reads a request body: the ids named by its filter clause, if
    the body has the fields clause in front and the limit clause behind.
  */
  function DecodeFilter(body: string): Option<seq<int>> {
    var front := Fields + "where id = ";
    var back := ";" + LimitClause();
    if |body| >= |front| + |back| && body[..|front|] == front && body[|body| - |back|..] == back
    then ParseTuple(body[|front|..|body| - |back|])
    else None
  }

  /** Every item of a tuple display reads back as its number. */
  lemma ParseItemsOf(ids: seq<int>)
    ensures ParseItems(TupleItems(ids)) == Some(ids)
  {
    var items := TupleItems(ids);
    forall k | 0 <= k < |ids|
      ensures ParseInt(items[k]) == Some(ids[k])
    {
      if k == 0 {
        ParseIntRepr(ids[0]);
      } else {
        ParseIntAfterBlank(ids[k]);
      }
    }
    ParseItemsAll(items, ids);
  }

  /** Items that each read as a number read as the sequence of those numbers. */
  lemma {:induction false} ParseItemsAll(items: seq<string>, xs: seq<int>)
    requires |items| == |xs|
    requires forall k :: 0 <= k < |items| ==> ParseInt(items[k]) == Some(xs[k])
    ensures ParseItems(items) == Some(xs)
    decreases |items|
  {
    if items != [] {
      forall k | 0 <= k < |items| - 1
        ensures ParseInt(items[1..][k]) == Some(xs[1..][k])
      {
        assert items[1..][k] == items[k + 1];
      }
      ParseItemsAll(items[1..], xs[1..]);
      ParseItemsCons(items[0], items[1..], xs[0], xs[1..]);
      assert [items[0]] + items[1..] == items;
      assert [xs[0]] + xs[1..] == xs;
    }
  }

  lemma ParseItemsCons(item: string, rest: seq<string>, x: int, xs: seq<int>)
    requires ParseInt(item) == Some(x) && ParseItems(rest) == Some(xs)
    ensures ParseItems([item] + rest) == Some([x] + xs)
  {
    assert ([item] + rest)[1..] == rest;
  }

  /** Reading the tuple display back gives the ids it was made from. */
  lemma TupleRoundTrip(ids: seq<int>)
    ensures ParseTuple(TupleRepr(ids)) == Some(ids)
  {
    if |ids| == 0 {
      assert TupleRepr(ids) == "()";
    } else if |ids| == 1 {
      OneTupleRoundTrip(ids[0]);
      assert ids == [ids[0]];
    } else {
      ManyTupleRoundTrip(ids);
    }
  }

  /** A display in parentheses is read from what lies between them. */
  lemma Parenthesized(s: string, inner: string)
    requires s == "(" + inner + ")"
    ensures |s| >= 2 && s[0] == '(' && s[|s| - 1] == ')' && s[1..|s| - 1] == inner
  {
  }

  /** `(x,)` reads back as the one number `x`. */
  lemma OneTupleRoundTrip(x: int)
    ensures ParseTuple("(" + IntRepr(x) + ",)") == Some([x])
  {
    var r := IntRepr(x);
    var inner := r + [','];
    assert "(" + r + ",)" == "(" + inner + ")";
    IntReprChars(x);
    SplitTrailing(r);
    ParseIntRepr(x);
    OneTupleOf("(" + inner + ")", inner, r, x);
  }

  lemma OneTupleOf(s: string, inner: string, r: string, x: int)
    requires s == "(" + inner + ")" && Split(inner, ',') == [r, []] && ParseInt(r) == Some(x)
    ensures ParseTuple(s) == Some([x])
  {
    Parenthesized(s, inner);
  }

  /** A piece without a comma followed by one comma splits into that piece and an empty one. */
  lemma SplitTrailing(r: string)
    requires ',' !in r
    ensures Split(r + [','], ',') == [r, []]
  {
    SplitAt(r, ',', []);
    assert r + [','] + [] == r + [','];
    assert Split([], ',') == [[]];
  }

  /** A display of two or more numbers reads back as those numbers. */
  lemma ManyTupleRoundTrip(ids: seq<int>)
    requires |ids| > 1
    ensures ParseTuple(TupleRepr(ids)) == Some(ids)
  {
    var items := TupleItems(ids);
    var inner := Join(items, ',');
    Parenthesized(TupleRepr(ids), inner);
    TupleItemsNoComma(ids);
    SplitJoin(items, ',');
    assert items[1] == " " + IntRepr(ids[1]);
    assert inner == items[0] + [','] + Join(items[1..], ',');
    ParseItemsOf(ids);
  }


  /** The catalog reads back from a body exactly the ids it was built from. */
  lemma BodyRoundTrip(ids: seq<int>)
    ensures DecodeFilter(Body(ids)) == Some(ids)
  {
    var t := TupleRepr(ids);
    Regroup(Fields, "where id = ", t, ";", LimitClause());
    DecodeFramed(Body(ids), t);
    TupleRoundTrip(ids);
  }

  /** The body of a request, regrouped around its tuple display. */
  lemma Regroup(f: string, w: string, t: string, semi: string, l: string)
    ensures f + (w + t + semi) + l == (f + w) + t + (semi + l)
  {
  }

  /** The filter read from a body is the tuple display between the front and the back of the body. */
  lemma DecodeFramed(body: string, t: string)
    requires body == (Fields + "where id = ") + t + (";" + LimitClause())
    ensures DecodeFilter(body) == ParseTuple(t)
  {
    Framed(Fields + "where id = ", t, ";" + LimitClause());
  }


  /** The parts of `a + b + c` can be cut out again by their lengths. */
  lemma Framed(a: string, b: string, c: string)
    ensures var s := a + b + c;
            s[..|a|] == a && s[|s| - |c|..] == c && s[|a|..|s| - |c|] == b
  {
  }

  /** Different id lists give different bodies. */
  lemma BodyInjective(a: seq<int>, b: seq<int>)
    requires Body(a) == Body(b)
    ensures a == b
  {
    BodyRoundTrip(a);
    BodyRoundTrip(b);
  }

  // ---------------------------------------------------------------------------
  // Catalog objects and game records
  // ---------------------------------------------------------------------------

  /** A nested catalog object of which only the name is requested. */
  datatype Named = Named(name: string)

  /** One entry of `involved_companies`, with its two role flags. */
  datatype InvolvedCompany = InvolvedCompany(company: Named, developer: bool, publisher: bool)

  /** One object of a catalog reply; `None` is a key the object does not have. */
  datatype CatalogObject = CatalogObject(
    id: Option<int>,
    name: Option<string>,
    firstReleaseDate: Option<int>,
    genres: Option<seq<Named>>,
    involvedCompanies: Option<seq<InvolvedCompany>>,
    platforms: Option<seq<Named>>,
    collections: Option<seq<Named>>)

  /**
    A game record. `gameId` and `title` are keys that are always present, `None`
    standing for a null value; every other `None` is an absent key.
  */
  datatype GameRecord = GameRecord(
    gameId: Option<int>,
    title: Option<string>,
    releaseYear: Option<int>,
    genres: Option<seq<string>>,
    developers: Option<seq<string>>,
    publishers: Option<seq<string>>,
    platforms: Option<seq<string>>,
    series: Option<seq<string>>)

  datatype Role = Developer | Publisher

  /** Python truthiness of an optional list: present and non-empty. */
  predicate NonEmpty<T>(xs: Option<seq<T>>) {
    xs.Some? && xs.value != []
  }

  /** Python truthiness of an optional integer: present and not zero. */
  predicate Truthy(t: Option<int>) {
    t.Some? && t.value != 0
  }

  function HasRole(c: InvolvedCompany, role: Role): bool {
    match role
    case Developer => c.developer
    case Publisher => c.publisher
  }

  /** `[x['name'] for x in xs]`. */
  function Names(xs: seq<Named>): (r: seq<string>)
    ensures |r| == |xs|
  {
    seq(|xs|, k requires 0 <= k < |xs| => xs[k].name)
  }

  /** A list-valued key that is set only when the source list is non-empty. */
  function NameList(xs: Option<seq<Named>>): Option<seq<string>> {
    if NonEmpty(xs) then Some(Names(xs.value)) else None
  }

  /** The company names of the entries that have `role`, in entry order. */
  function RoleNames(cs: seq<InvolvedCompany>, role: Role): seq<string> {
    if cs == [] then []
    else (if HasRole(cs[0], role) then [cs[0].company.name] else []) + RoleNames(cs[1..], role)
  }

  /** A key built by `setdefault(…).append`: absent until something is appended. */
  function Present(xs: seq<string>): Option<seq<string>> {
    if xs == [] then None else Some(xs)
  }

  /** The entries of `involved_companies` that the loop visits. */
  function Companies(obj: CatalogObject): seq<InvolvedCompany> {
    if NonEmpty(obj.involvedCompanies) then obj.involvedCompanies.value else []
  }

  /** The record `_parse_game_data` builds from one catalog object. */
  function RecordOf(obj: CatalogObject, yearOf: int -> int): GameRecord {
    GameRecord(
      gameId := obj.id,
      title := obj.name,
      releaseYear := if Truthy(obj.firstReleaseDate) then Some(yearOf(obj.firstReleaseDate.value)) else None,
      genres := NameList(obj.genres),
      developers := Present(RoleNames(Companies(obj), Developer)),
      publishers := Present(RoleNames(Companies(obj), Publisher)),
      platforms := NameList(obj.platforms),
      series := NameList(obj.collections))
  }

  /** One record per catalog object, in reply order. */
  function RecordsOf(data: seq<CatalogObject>, yearOf: int -> int): (r: seq<GameRecord>)
    ensures |r| == |data|
  {
    seq(|data|, k requires 0 <= k < |data| => RecordOf(data[k], yearOf))
  }

  /**
    A company name is listed under a role exactly when some entry with that name
    has the role flag set; the list is empty when no entry has it.
  */
  lemma {:induction false} RoleNamesMembers(cs: seq<InvolvedCompany>, role: Role, name: string)
    ensures name in RoleNames(cs, role) <==> exists k :: 0 <= k < |cs| && HasRole(cs[k], role) && cs[k].company.name == name
    ensures RoleNames(cs, role) == [] <==> forall k :: 0 <= k < |cs| ==> !HasRole(cs[k], role)
    decreases |cs|
  {
    if cs != [] {
      RoleNamesMembers(cs[1..], role, name);
      forall k | 1 <= k < |cs| ensures cs[k] == cs[1..][k - 1] { }
    }
  }

  /**
    `developers` and `publishers` of a record: each is present exactly when some
    involved company has that role, and then lists exactly the names of those
    companies. One entry can land in both lists or in neither.
  */
  lemma RecordRoles(obj: CatalogObject, yearOf: int -> int, role: Role, name: string)
    ensures var r := RecordOf(obj, yearOf);
            var field := if role == Developer then r.developers else r.publishers;
            var cs := Companies(obj);
            && (field.Some? <==> exists k :: 0 <= k < |cs| && HasRole(cs[k], role))
            && (field.Some? ==> (name in field.value <==>
                   exists k :: 0 <= k < |cs| && HasRole(cs[k], role) && cs[k].company.name == name))
  {
    var cs := Companies(obj);
    RoleNamesMembers(cs, role, name);
  }

  /** The role names of two runs of entries, one after the other. */
  lemma {:induction false} RoleNamesAppend(a: seq<InvolvedCompany>, b: seq<InvolvedCompany>, role: Role)
    ensures RoleNames(a + b, role) == RoleNames(a, role) + RoleNames(b, role)
    decreases |a|
  {
    if a == [] {
      assert a + b == b;
    } else {
      assert (a + b)[0] == a[0] && (a + b)[1..] == a[1..] + b;
      RoleNamesAppend(a[1..], b, role);
    }
  }

  /** Taking out an entry without `role` leaves the names under `role` as they were. */
  lemma RoleNamesWithout(cs: seq<InvolvedCompany>, k: nat, role: Role)
    requires k < |cs| && !HasRole(cs[k], role)
    ensures RoleNames(cs[..k] + cs[k + 1..], role) == RoleNames(cs, role)
  {
    assert cs == cs[..k] + ([cs[k]] + cs[k + 1..]);
    assert [cs[k]][1..] == [];
    RoleNamesAppend(cs[..k], [cs[k]] + cs[k + 1..], role);
    RoleNamesAppend([cs[k]], cs[k + 1..], role);
    RoleNamesAppend(cs[..k], cs[k + 1..], role);
  }

  /**
    An involved company with both flags is listed under `developers` and under
    `publishers`; one with neither flag contributes nothing: the record is the
    same with that entry taken out.
  */
  lemma BothRolesOrNeither(obj: CatalogObject, yearOf: int -> int, k: int)
    requires 0 <= k < |Companies(obj)|
    ensures var c := Companies(obj)[k];
            var r := RecordOf(obj, yearOf);
            && (c.developer && c.publisher ==>
                  && r.developers.Some? && c.company.name in r.developers.value
                  && r.publishers.Some? && c.company.name in r.publishers.value)
            && (!c.developer && !c.publisher ==>
                  var cs := Companies(obj);
                  RecordOf(obj.(involvedCompanies := Some(cs[..k] + cs[k + 1..])), yearOf) == r)
  {
    var cs := Companies(obj);
    var c := cs[k];
    RecordRoles(obj, yearOf, Developer, c.company.name);
    RecordRoles(obj, yearOf, Publisher, c.company.name);
    if !c.developer && !c.publisher {
      var rest := cs[..k] + cs[k + 1..];
      RoleNamesWithout(cs, k, Developer);
      RoleNamesWithout(cs, k, Publisher);
      var obj' := obj.(involvedCompanies := Some(rest));
      if rest == [] {
        assert Companies(obj') == [];
      } else {
        assert Companies(obj') == rest;
      }
    }
  }

  /**
    The keys of a record: `game_id` and `title` always carry the object's values;
    `release_year` is there only for a present, non-zero timestamp; `genres`,
    `platforms` and `series` only for non-empty source lists, each holding the
    names of that list in source order.
  */
  lemma RecordKeys(obj: CatalogObject, yearOf: int -> int)
    ensures var r := RecordOf(obj, yearOf);
            && r.gameId == obj.id && r.title == obj.name
            && (r.releaseYear.Some? <==> obj.firstReleaseDate.Some? && obj.firstReleaseDate.value != 0)
            && (r.releaseYear.Some? ==> r.releaseYear.value == yearOf(obj.firstReleaseDate.value))
            && (r.genres.Some? <==> obj.genres.Some? && |obj.genres.value| > 0)
            && (r.genres.Some? ==>
                  && |r.genres.value| == |obj.genres.value|
                  && forall k :: 0 <= k < |obj.genres.value| ==> r.genres.value[k] == obj.genres.value[k].name)
            && (r.platforms.Some? <==> obj.platforms.Some? && |obj.platforms.value| > 0)
            && (r.platforms.Some? ==>
                  && |r.platforms.value| == |obj.platforms.value|
                  && forall k :: 0 <= k < |obj.platforms.value| ==> r.platforms.value[k] == obj.platforms.value[k].name)
            && (r.series.Some? <==> obj.collections.Some? && |obj.collections.value| > 0)
            && (r.series.Some? ==>
                  && |r.series.value| == |obj.collections.value|
                  && forall k :: 0 <= k < |obj.collections.value| ==> r.series.value[k] == obj.collections.value[k].name)
  {
  }

  // ---------------------------------------------------------------------------
  // Reply statuses
  // ---------------------------------------------------------------------------

  /** A reply of the catalog service: its status and its JSON list of objects. */
  datatype CatalogReply = CatalogReply(status: int, data: seq<CatalogObject>)

  /**
    What ends a fetch: an HTTP error raised by `raise_for_status`, the `TypeError`
    of the retry call as written, or (in this model only) a reply sequence
    that ran out while the service was still throttling.
  */
  datatype FetchError = HttpError(status: int) | TypeError | RetriesExhausted

  datatype StatusAction = Retry | Raise | Parse

  /**
    How `_fetch_info` treats a status: anything but 200 and 429 is logged and
    passed to `raise_for_status`, which raises only from 400 up; 429 retries;
    everything else goes on to read the reply.
  */
  function Classify(status: int): (a: StatusAction)
    ensures a == Retry <==> status == 429
    ensures a == Raise <==> status >= 400 && status != 429
    ensures a == Parse <==> status < 400 && status != 429
  {
    if status != 200 && status != 429 && status >= 400 then Raise
    else if status == 429 then Retry
    else Parse
  }

  /**
    The index of the first reply that is not a throttle, or the number of
    replies if all of them are.
  */
  function Settle(replies: seq<CatalogReply>): (i: nat)
    ensures i <= |replies|
    ensures forall k :: 0 <= k < i ==> replies[k].status == 429
    ensures i < |replies| ==> replies[i].status != 429
  {
    if replies == [] || replies[0].status != 429 then 0 else Settle(replies[1..]) + 1
  }

  /** What one `_fetch_info` call does: how many POSTs it makes, its outcome, the records it adds. */
  datatype FetchRun = FetchRun(posts: nat, outcome: Result<(), FetchError>, added: seq<GameRecord>)

  /** The effect of `_fetch_info` for a body the service answers with `replies`. */
  function FetchSpec(replies: seq<CatalogReply>, yearOf: int -> int): FetchRun {
    var i := Settle(replies);
    if i == |replies| then FetchRun(i, Failure(RetriesExhausted), [])
    else if Classify(replies[i].status) == Raise then FetchRun(i + 1, Failure(HttpError(replies[i].status)), [])
    else FetchRun(i + 1, Success(()), RecordsOf(replies[i].data, yearOf))
  }

  /**
    A throttled reply in front changes nothing but the number of POSTs: a fetch
    answered 429 and then 200 ends as one answered 200 at once.
  */
  lemma ThrottleIsTransparent(throttle: CatalogReply, replies: seq<CatalogReply>, yearOf: int -> int)
    requires throttle.status == 429
    ensures var before := FetchSpec([throttle] + replies, yearOf);
            var after := FetchSpec(replies, yearOf);
            before.outcome == after.outcome && before.added == after.added && before.posts == after.posts + 1
  {
    assert ([throttle] + replies)[1..] == replies;
  }

  /**
    The status handling as written at api.py:97-113: the retry passes the
    session as an extra argument, so a 429 raises `TypeError` instead of
    retrying.
  */
  function HandleReplyAsWritten(reply: CatalogReply, yearOf: int -> int): (r: Result<seq<GameRecord>, FetchError>)
    ensures r == Failure(HttpError(reply.status)) <==> Classify(reply.status) == Raise
    ensures r == Failure(TypeError) <==> Classify(reply.status) == Retry
    ensures r == Success(RecordsOf(reply.data, yearOf)) <==> Classify(reply.status) == Parse
  {
    if reply.status != 200 && reply.status != 429 && reply.status >= 400 then Failure(HttpError(reply.status))
    else if reply.status == 429 then Failure(TypeError)
    else Success(RecordsOf(reply.data, yearOf))
  }

  /**
    A reply sequence 429, then 200 with `data`: as written, the fetch fails with
    a `TypeError`; with the retry made as intended, it adds the records of `data`.
  */
  lemma ThrottleThenOk(data: seq<CatalogObject>, yearOf: int -> int)
    ensures HandleReplyAsWritten(CatalogReply(429, []), yearOf) == Failure(TypeError)
    ensures var run := FetchSpec([CatalogReply(429, []), CatalogReply(200, data)], yearOf);
            run.outcome == Success(()) && run.added == RecordsOf(data, yearOf) && run.posts == 2
  {
    var replies := [CatalogReply(429, []), CatalogReply(200, data)];
    assert replies[1..] == [CatalogReply(200, data)];
    assert Settle(replies[1..]) == 0;
  }

  // ---------------------------------------------------------------------------
  // The whole collection
  // ---------------------------------------------------------------------------

  /** A collection run: its outcome, every body posted, every record added. */
  type CollectRun = Stage<string, GameRecord, FetchError>

  /** The body posted for each batch, in batch order. */
  function Bodies(batches: seq<seq<int>>): (bodies: seq<string>)
    ensures |bodies| == |batches|
  {
    seq(|batches|, k requires 0 <= k < |batches| => Body(batches[k]))
  }

  /** Each body names its own batch's ids, so distinct batches give distinct bodies. */
  lemma BodiesDecode(batches: seq<seq<int>>)
    ensures forall k :: 0 <= k < |batches| ==> DecodeFilter(Bodies(batches)[k]) == Some(batches[k])
  {
    forall k | 0 <= k < |batches| ensures DecodeFilter(Bodies(batches)[k]) == Some(batches[k]) {
      BodyRoundTrip(batches[k]);
    }
  }

  /** The records the first reply to `body` adds when it is answered at once. */
  function FirstRecords(server: string -> seq<CatalogReply>, body: string, yearOf: int -> int): seq<GameRecord> {
    if server(body) == [] then [] else RecordsOf(server(body)[0].data, yearOf)
  }

  /** The fetch of one body: the POSTs it makes, and its outcome and records. */
  function BodyStep(body: string, server: string -> seq<CatalogReply>, yearOf: int -> int): (step: CollectRun)
    ensures step.outcome.Failure? ==> step.items == []
  {
    var f := FetchSpec(server(body), yearOf);
    Stage(f.outcome, Repeat(body, f.posts), f.added)
  }

  function BodySteps(bodies: seq<string>, server: string -> seq<CatalogReply>, yearOf: int -> int): (steps: seq<CollectRun>)
    ensures |steps| == |bodies|
  {
    seq(|bodies|, k requires 0 <= k < |bodies| => BodyStep(bodies[k], server, yearOf))
  }

  /** The bodies fetched one after the other; the first failure ends the run. */
  function CollectSpec(bodies: seq<string>, server: string -> seq<CatalogReply>, yearOf: int -> int): CollectRun {
    Chain(BodySteps(bodies, server, yearOf))
  }

  /** The service answers the first POST of `body` without throttling or error. */
  predicate AnsweredAtOnce(server: string -> seq<CatalogReply>, body: string) {
    var replies := server(body);
    replies != [] && replies[0].status != 429 && replies[0].status < 400
  }

  /**
    When no body is throttled or refused, the run succeeds, posts each body
    exactly once in order, and adds the records of each reply one after the
    other.
  */
  lemma CollectAnsweredAtOnce(bodies: seq<string>, server: string -> seq<CatalogReply>, yearOf: int -> int)
    requires forall k :: 0 <= k < |bodies| ==> AnsweredAtOnce(server, bodies[k])
    ensures var run := CollectSpec(bodies, server, yearOf);
            && run.outcome == Success(())
            && run.requests == bodies
            && run.items == Flatten(seq(|bodies|, k requires 0 <= k < |bodies| => FirstRecords(server, bodies[k], yearOf)))
  {
    var steps := BodySteps(bodies, server, yearOf);
    forall k | 0 <= k < |steps|
      ensures steps[k] == Stage(Success(()), [bodies[k]], FirstRecords(server, bodies[k], yearOf))
    {
      StepAnsweredAtOnce(bodies[k], server, yearOf);
    }
    ChainAllSucceed(steps);
    assert seq(|steps|, k requires 0 <= k < |steps| => steps[k].requests)
        == seq(|bodies|, k requires 0 <= k < |bodies| => [bodies[k]]);
    FlattenSingletons(bodies);
    assert seq(|steps|, k requires 0 <= k < |steps| => steps[k].items)
        == seq(|bodies|, k requires 0 <= k < |bodies| => FirstRecords(server, bodies[k], yearOf));
  }

  /** A body answered at once is posted once and adds the records of that first reply. */
  lemma StepAnsweredAtOnce(body: string, server: string -> seq<CatalogReply>, yearOf: int -> int)
    requires AnsweredAtOnce(server, body)
    ensures BodyStep(body, server, yearOf) == Stage(Success(()), [body], FirstRecords(server, body, yearOf))
  {
    assert Settle(server(body)) == 0;
  }

  /**
    For the batches `collect` forms, an unthrottled, error-free service is
    asked for every game id exactly once, each batch in one request.
  */
  lemma CollectRequestsEveryId(gameIds: seq<int>, server: string -> seq<CatalogReply>, yearOf: int -> int)
    requires forall k :: 0 <= k < |Bodies(Batches(gameIds))| ==> AnsweredAtOnce(server, Bodies(Batches(gameIds))[k])
    ensures var run := CollectSpec(Bodies(Batches(gameIds)), server, yearOf);
            && run.outcome == Success(())
            && |run.requests| == |Batches(gameIds)|
            && (forall k :: 0 <= k < |run.requests| ==> DecodeFilter(run.requests[k]) == Some(Batches(gameIds)[k]))
            && Flatten(Batches(gameIds)) == gameIds
  {
    CollectAnsweredAtOnce(Bodies(Batches(gameIds)), server, yearOf);
    BodiesDecode(Batches(gameIds));
    BatchesPartition(gameIds);
  }

  // ---------------------------------------------------------------------------
  // The collector
  // ---------------------------------------------------------------------------

  class IgdbInfoCollector {
    const gameIds: seq<int>
    /** `dt.fromtimestamp(t).year`, which depends on the local time zone. */
    const yearOf: int -> int
    var results: seq<GameRecord>
    /** The body of every POST made so far, retries included. */
    var requests: seq<string>

    constructor (gameIds: seq<int>, yearOf: int -> int)
      ensures this.gameIds == gameIds && this.yearOf == yearOf
      ensures results == [] && requests == []
    {
      this.gameIds := gameIds;
      this.yearOf := yearOf;
      results := [];
      requests := [];
    }

    /**
      The `developers` and `publishers` keys filled by the loop over
      `involved_companies`, each absent until a first name is appended.
    */
    static method CompanyRoles(companies: seq<InvolvedCompany>) returns (developers: Option<seq<string>>, publishers: Option<seq<string>>)
      ensures developers == Present(RoleNames(companies, Developer))
      ensures publishers == Present(RoleNames(companies, Publisher))
    {
      developers, publishers := None, None;
      var i := 0;
      while i < |companies|
        invariant 0 <= i <= |companies|
        invariant developers == Present(RoleNames(companies[..i], Developer))
        invariant publishers == Present(RoleNames(companies[..i], Publisher))
      {
        var company := companies[i];
        assert companies[..i + 1] == companies[..i] + [company];
        AppendRole(companies[..i], company, Developer, developers);
        AppendRole(companies[..i], company, Publisher, publishers);
        if company.developer {
          developers := Some(developers.GetOr([]) + [company.company.name]);
        }
        if company.publisher {
          publishers := Some(publishers.GetOr([]) + [company.company.name]);
        }
        i := i + 1;
      }
      assert companies[..i] == companies;
    }

    /** The record built for one catalog object. */
    method BuildRecord(obj: CatalogObject) returns (game: GameRecord)
      ensures game == RecordOf(obj, yearOf)
    {
      game := GameRecord(obj.id, obj.name, None, None, None, None, None, None);
      if Truthy(obj.firstReleaseDate) {
        game := game.(releaseYear := Some(yearOf(obj.firstReleaseDate.value)));
      }
      if NonEmpty(obj.genres) {
        game := game.(genres := Some(Names(obj.genres.value)));
      }
      if NonEmpty(obj.involvedCompanies) {
        var developers, publishers := CompanyRoles(obj.involvedCompanies.value);
        game := game.(developers := developers, publishers := publishers);
      }
      if NonEmpty(obj.platforms) {
        game := game.(platforms := Some(Names(obj.platforms.value)));
      }
      if NonEmpty(obj.collections) {
        game := game.(series := Some(Names(obj.collections.value)));
      }
    }

    /** `_parse_game_data`: one record per object, appended in reply order. */
    method ParseGameData(data: seq<CatalogObject>)
      modifies this`results
      ensures results == old(results) + RecordsOf(data, yearOf)
    {
      var i := 0;
      while i < |data|
        invariant 0 <= i <= |data|
        invariant results == old(results) + RecordsOf(data[..i], yearOf)
      {
        var game := BuildRecord(data[i]);
        assert RecordsOf(data[..i + 1], yearOf) == RecordsOf(data[..i], yearOf) + [game];
        results := results + [game];
        i := i + 1;
      }
      assert data[..i] == data;
    }

    /**
      `_fetch_info` for one id list, with the throttled request re-posted as
      intended (the source's retry call at api.py:106 passes the session as
      an extra argument; see HandleReplyAsWritten). `server(body)` lists the
      replies to successive POSTs of `body`.
    */
    method FetchInfo(ids: seq<int>, server: string -> seq<CatalogReply>) returns (res: Result<(), FetchError>)
      modifies this`results, this`requests
      ensures var run := FetchSpec(server(Body(ids)), yearOf);
              && res == run.outcome
              && requests == old(requests) + Repeat(Body(ids), run.posts)
              && results == old(results) + run.added
    {
      var body := Body(ids);
      res := Post(body, server(body));
    }

    /** The POSTs of one body until a reply is not a throttle, and the handling of that reply. */
    method Post(body: string, replies: seq<CatalogReply>) returns (res: Result<(), FetchError>)
      modifies this`results, this`requests
      ensures var run := FetchSpec(replies, yearOf);
              && res == run.outcome
              && requests == old(requests) + Repeat(body, run.posts)
              && results == old(results) + run.added
    {
      var i := 0;
      while i < |replies| && Classify(replies[i].status) == Retry
        invariant 0 <= i <= |replies|
        invariant forall k :: 0 <= k < i ==> replies[k].status == 429
        invariant requests == old(requests) + Repeat(body, i)
        invariant results == old(results)
      {
        RepeatSnoc(body, i);
        requests := requests + [body];
        i := i + 1;
      }
      SettleIs(replies, i);
      assert results == old(results) + [];
      if i == |replies| {
        return Failure(RetriesExhausted);
      }
      RepeatSnoc(body, i);
      requests := requests + [body];
      var reply := replies[i];
      if Classify(reply.status) == Raise {
        return Failure(HttpError(reply.status));
      }
      if reply.data != [] {
        ParseGameData(reply.data);
      } else {
        assert RecordsOf(reply.data, yearOf) == [];
      }
      return Success(());
    }

    /**
      `collect`: one fetch with the whole list when it fits one request, else one
      fetch per chunk; a failing fetch ends the collection.
    */
    method Collect(server: string -> seq<CatalogReply>) returns (res: Result<(), FetchError>)
      modifies this`results, this`requests
      ensures var run := CollectSpec(Bodies(Batches(gameIds)), server, yearOf);
              && res == run.outcome
              && requests == old(requests) + run.requests
              && results == old(results) + run.items
    {
      var batches: seq<seq<int>>;
      if |gameIds| > Limit {
        batches := Chunkify(gameIds, Limit);
      } else {
        batches := [gameIds];
      }
      assert batches == Batches(gameIds);
      res := FetchAll(batches, server);
    }

    /** The fetches of a list of batches, one after the other, up to the first failure. */
    method FetchAll(batches: seq<seq<int>>, server: string -> seq<CatalogReply>) returns (res: Result<(), FetchError>)
      modifies this`results, this`requests
      ensures var run := CollectSpec(Bodies(batches), server, yearOf);
              && res == run.outcome
              && requests == old(requests) + run.requests
              && results == old(results) + run.items
    {
      ghost var bodies := Bodies(batches);
      ghost var steps := BodySteps(bodies, server, yearOf);
      assert steps[0..] == steps;
      var k := 0;
      while k < |batches|
        invariant 0 <= k <= |batches|
        invariant Chain(steps).outcome == Chain(steps[k..]).outcome
        invariant old(requests) + Chain(steps).requests == requests + Chain(steps[k..]).requests
        invariant old(results) + Chain(steps).items == results + Chain(steps[k..]).items
      {
        ghost var before, addedBefore := requests, results;
        ghost var rest := Chain(steps[k + 1..]);
        ghost var step := steps[k];
        assert step == BodyStep(Body(batches[k]), server, yearOf);
        ChainStep(steps, k);
        res := FetchInfo(batches[k], server);
        if res.Failure? {
          assert requests + [] == requests;
          return;
        }
        Assoc(before, step.requests, rest.requests);
        Assoc(addedBefore, step.items, rest.items);
        k := k + 1;
      }
      return Success(());
    }
  }

  lemma RoleNamesSnoc(cs: seq<InvolvedCompany>, c: InvolvedCompany, role: Role)
    ensures RoleNames(cs + [c], role) == RoleNames(cs, role) + (if HasRole(c, role) then [c.company.name] else [])
  {
    if cs != [] {
      assert (cs + [c])[1..] == cs[1..] + [c];
      RoleNamesSnoc(cs[1..], c, role);
    } else {
      assert [c][1..] == [];
    }
  }

  /** One step of the `setdefault(…).append` loop keeps its key equal to the names so far. */
  lemma AppendRole(cs: seq<InvolvedCompany>, c: InvolvedCompany, role: Role, current: Option<seq<string>>)
    requires current == Present(RoleNames(cs, role))
    ensures (if HasRole(c, role) then Some(current.GetOr([]) + [c.company.name]) else current)
            == Present(RoleNames(cs + [c], role))
  {
    RoleNamesSnoc(cs, c, role);
    assert RoleNames(cs, role) + [] == RoleNames(cs, role);
  }

  lemma SettleIs(replies: seq<CatalogReply>, i: nat)
    requires i <= |replies|
    requires forall k :: 0 <= k < i ==> replies[k].status == 429
    requires i < |replies| ==> replies[i].status != 429
    ensures Settle(replies) == i
  {

  }
}
