/**
 * The request handling of server/server.js for `/api/places`: the SQL text and
 * parameter list `GET` builds from its `category` and `tags` query values, the
 * parameters `POST` binds for a new place, and the mapping of a stored row back
 * to the JSON place `GET` returns. The database itself is a map from column name
 * to stored value.
 */
module Server {
  import opened Wrappers
  import opened Types
  import Text
  import Json

  /** A value bound to a placeholder or stored in a column. */
  datatype SqlValue = Null | Integer(i: int) | Real(r: real) | Text(s: string)

  /** A query-string value in an `if`: absent and empty are false. */
  predicate Present(q: Option<string>) {
    q.Some? && q.value != ""
  }

  const SelectAll := "SELECT * FROM places"
  const CategoryTest := " WHERE category = "
  const CategoryClause := CategoryTest + "?"
  const ConditionTest := "tags LIKE "
  const Condition := ConditionTest + "?"
  const OrderClause := " ORDER BY rating DESC"

  /** `tagList.map(() => 'tags LIKE ?').join(' OR ')` for `n` tags. */
  function TagConditions(n: nat): string {
    Text.Join(seq(n, _ => Condition), " OR ")
  }

  /** The tag conditions in parentheses, attached with AND after a category clause and
      with WHERE otherwise. */
  function TagClause(afterCategory: bool, n: nat): string {
    (if afterCategory then " AND (" else " WHERE (") + TagConditions(n) + ")"
  }

  /** The query text for the filters that are present and the number of tags. */
  function QueryText(hasCategory: bool, hasTags: bool, tagCount: nat): string {
    var withCategory := if hasCategory then SelectAll + CategoryClause else SelectAll;
    var withTags := if hasTags then withCategory + TagClause(hasCategory, tagCount) else withCategory;
    withTags + OrderClause
  }

  /** The text `GET /api/places` sends to the database. */
  function PlacesQuery(category: Option<string>, tags: Option<string>): string {
    QueryText(Present(category), Present(tags), if Present(tags) then |Text.Split(tags.value, ',')| else 0)
  }

  /** The `LIKE` pattern of one tag. */
  function Pattern(tag: string): string {
    "%" + tag + "%"
  }

  /** `tagList.forEach(tag => params.push(`%${tag}%`))` as a value. */
  function Patterns(tagList: seq<string>): (patterns: seq<string>)
    ensures |patterns| == |tagList|
    ensures forall i :: 0 <= i < |tagList| ==> patterns[i] == Pattern(tagList[i])
  {
    seq(|tagList|, i requires 0 <= i < |tagList| => Pattern(tagList[i]))
  }

  /** A pattern with its surrounding '%' removed. */
  function Unpattern(pattern: string): string {
    if |pattern| >= 2 then pattern[1..|pattern| - 1] else pattern
  }

  function Unpatterned(patterns: seq<string>): (tagList: seq<string>)
    ensures |tagList| == |patterns|
    ensures forall i :: 0 <= i < |patterns| ==> tagList[i] == Unpattern(patterns[i])
  {
    seq(|patterns|, i requires 0 <= i < |patterns| => Unpattern(patterns[i]))
  }

  /** Removing the '%' of each pattern gives back the tags. */
  lemma UnpatternPatterns(tagList: seq<string>)
    ensures Unpatterned(Patterns(tagList)) == tagList
  {
    forall i | 0 <= i < |tagList| ensures Unpatterned(Patterns(tagList))[i] == tagList[i] {
      assert Pattern(tagList[i])[1..|Pattern(tagList[i])| - 1] == tagList[i];
    }
  }

  /** The parameters `GET /api/places` binds, in placeholder order. */
  function PlacesParams(category: Option<string>, tags: Option<string>): seq<string> {
    (if Present(category) then [category.value] else [])
    + (if Present(tags) then Patterns(Text.Split(tags.value, ',')) else [])
  }

  /** `tagList.forEach(tag => params.push(`%${tag}%`))`, one tag at a time. */
  method PushPatterns(params: seq<string>, tagList: seq<string>) returns (pushed: seq<string>)
    ensures pushed == params + Patterns(tagList)
  {
    pushed := params;
    var i := 0;
    while i < |tagList|
      invariant 0 <= i <= |tagList|
      invariant |pushed| == |params| + i
      invariant pushed[..|params|] == params
      invariant forall k :: 0 <= k < i ==> pushed[|params| + k] == Pattern(tagList[k])
    {
      pushed := pushed + [Pattern(tagList[i])];
      i := i + 1;
    }
    assert pushed == params + Patterns(tagList);
  }

  /** The handler's statements: `query +=` and `params.push`. */
  method BuildPlacesQuery(category: Option<string>, tags: Option<string>) returns (query: string, params: seq<string>)
    ensures query == PlacesQuery(category, tags)
    ensures params == PlacesParams(category, tags)
  {
    query := SelectAll;
    params := [];
    if Present(category) {
      query := query + CategoryClause;
      params := params + [category.value];
    }
    if Present(tags) {
      var tagList := Text.Split(tags.value, ',');
      query := query + TagClause(Present(category), |tagList|);
      params := PushPatterns(params, tagList);
    }
    query := query + OrderClause;
  }

  /** Without filters the handler asks for every place, best rated first. */
  lemma NoFilterQuery(category: Option<string>, tags: Option<string>)
    requires !Present(category) && !Present(tags)
    ensures PlacesQuery(category, tags) == SelectAll + OrderClause
    ensures PlacesParams(category, tags) == []
  {
  }

  /** With a category and tags the parenthesised tag conditions follow the category test
      after AND; with tags only they form the WHERE clause; with a category only the
      query tests the category. */
  lemma FilteredQueryForms(category: Option<string>, tags: Option<string>)
    ensures Present(category) && Present(tags) ==>
              PlacesQuery(category, tags) ==
              SelectAll + CategoryClause + " AND (" + TagConditions(|Text.Split(tags.value, ',')|) + ")" + OrderClause
    ensures !Present(category) && Present(tags) ==>
              PlacesQuery(category, tags) ==
              SelectAll + " WHERE (" + TagConditions(|Text.Split(tags.value, ',')|) + ")" + OrderClause
    ensures Present(category) && !Present(tags) ==> PlacesQuery(category, tags) == SelectAll + CategoryClause + OrderClause
  {
  }

  /** Every query ends with the ordering clause. */
  lemma QueryEndsWithOrder(category: Option<string>, tags: Option<string>)
    ensures var q := PlacesQuery(category, tags);
      |q| >= |OrderClause| && q[|q| - |OrderClause|..] == OrderClause
  {
  }

  /** The parameters are the category, when present, then one pattern per comma-separated
      tag in order; the patterns stripped of their '%' and joined by commas give back the
      tags value. */
  lemma ParamsLayout(category: Option<string>, tags: Option<string>)
    ensures var p := PlacesParams(category, tags);
      var offset := if Present(category) then 1 else 0;
      |p| == offset + (if Present(tags) then Text.CountChar(tags.value, ',') + 1 else 0)
      && (Present(category) ==> p[0] == category.value)
      && (Present(tags) ==>
            (forall i :: 0 <= i < |Text.Split(tags.value, ',')| ==> p[offset + i] == Pattern(Text.Split(tags.value, ',')[i]))
            && Text.Join(Unpatterned(p[offset..]), ",") == tags.value)
  {
    if Present(tags) {
      var parts := Text.Split(tags.value, ',');
      Text.SplitParts(tags.value, ',');
      var pre := if Present(category) then [category.value] else [];
      assert PlacesParams(category, tags)[|pre|..] == Patterns(parts);
      UnpatternPatterns(parts);
      Text.JoinSplit(tags.value, ',');
    }
  }

  lemma {:induction false} CountAbsent(s: string, c: char)
    requires c !in s
    ensures Text.CountChar(s, c) == 0
  {
    if s != [] {
      CountAbsent(s[1..], c);
    }
  }

  /** A string ending in its only `?` has one placeholder. */
  lemma OnePlaceholder(prefix: string)
    requires '?' !in prefix
    ensures Text.CountChar(prefix + "?", '?') == 1
  {
    CountAbsent(prefix, '?');
    Text.CountCharAppend(prefix, "?", '?');
  }

  /** `n` conditions carry `n` placeholders. */
  lemma {:induction false} ConditionPlaceholders(n: nat)
    ensures Text.CountChar(TagConditions(n), '?') == n
  {
    assert '?' !in " OR " && '?' !in ConditionTest;
    if n >= 2 {
      var parts := seq(n, _ => Condition);
      assert parts[1..] == seq(n - 1, _ => Condition);
      assert TagConditions(n) == Condition + " OR " + TagConditions(n - 1);
      ConditionPlaceholders(n - 1);
      Text.CountCharAppend(Condition, " OR ", '?');
      Text.CountCharAppend(Condition + " OR ", TagConditions(n - 1), '?');
    }
    CountAbsent(" OR ", '?');
    OnePlaceholder(ConditionTest);
  }

  /** The tag clause carries one placeholder per tag. */
  lemma TagClausePlaceholders(afterCategory: bool, n: nat)
    ensures Text.CountChar(TagClause(afterCategory, n), '?') == n
  {
    var open := if afterCategory then " AND (" else " WHERE (";
    assert '?' !in open && '?' !in ")";
    ConditionPlaceholders(n);
    Text.CountCharAppend(open, TagConditions(n), '?');
    Text.CountCharAppend(open + TagConditions(n), ")", '?');
    CountAbsent(open, '?');
    CountAbsent(")", '?');
  }

  /** The text before the tag clause carries the category's placeholder, if any. */
  lemma BasePlaceholders(hasCategory: bool)
    ensures Text.CountChar(if hasCategory then SelectAll + CategoryClause else SelectAll, '?')
            == if hasCategory then 1 else 0
  {
    assert '?' !in SelectAll && '?' !in CategoryTest;
    PrefixPlaceholders(SelectAll, CategoryTest, hasCategory);
  }

  /** A `?`-free text, optionally followed by a `?`-free test and its `?`. */
  lemma PrefixPlaceholders(select: string, test: string, withTest: bool)
    requires '?' !in select && '?' !in test
    ensures Text.CountChar(if withTest then select + (test + "?") else select, '?') == if withTest then 1 else 0
  {
    CountAbsent(select, '?');
    if withTest {
      OnePlaceholder(test);
      Text.CountCharAppend(select, test + "?", '?');
    }
  }

  /** Appending text without a `?` adds no placeholder. */
  lemma AppendNoPlaceholder(q: string, suffix: string)
    requires '?' !in suffix
    ensures Text.CountChar(q + suffix, '?') == Text.CountChar(q, '?')
  {
    CountAbsent(suffix, '?');
    Text.CountCharAppend(q, suffix, '?');
  }

  /** The number of parameters: one for a category, one per tag. */
  lemma ParamsCount(category: Option<string>, tags: Option<string>)
    ensures |PlacesParams(category, tags)|
            == (if Present(category) then 1 else 0) + (if Present(tags) then |Text.Split(tags.value, ',')| else 0)
  {
  }

  /** The query text carries one placeholder for the category and one per tag. */
  lemma QueryTextPlaceholders(hasCategory: bool, hasTags: bool, tagCount: nat)
    ensures Text.CountChar(QueryText(hasCategory, hasTags, tagCount), '?')
            == (if hasCategory then 1 else 0) + (if hasTags then tagCount else 0)
  {
    OrderHasNoPlaceholder();
    BasePlaceholders(hasCategory);
    TagClausePlaceholders(hasCategory, tagCount);
    var withCategory := if hasCategory then SelectAll + CategoryClause else SelectAll;
    SuffixPlaceholders(withCategory, TagClause(hasCategory, tagCount), OrderClause, hasTags);
  }

  lemma OrderHasNoPlaceholder()
    ensures '?' !in OrderClause
  {
  }

  /** A text, optionally followed by a clause, then a `?`-free suffix. */
  lemma SuffixPlaceholders(base: string, clause: string, suffix: string, withClause: bool)
    requires '?' !in suffix
    ensures Text.CountChar((if withClause then base + clause else base) + suffix, '?')
            == Text.CountChar(base, '?') + (if withClause then Text.CountChar(clause, '?') else 0)
  {
    AppendNoPlaceholder(if withClause then base + clause else base, suffix);
    if withClause {
      Text.CountCharAppend(base, clause, '?');
    }
  }

  /** Each `?` of the query has its parameter: their numbers agree. */
  lemma PlaceholdersMatchParams(category: Option<string>, tags: Option<string>)
    ensures Text.CountChar(PlacesQuery(category, tags), '?') == |PlacesParams(category, tags)|
  {
    QueryTextPlaceholders(Present(category), Present(tags), if Present(tags) then |Text.Split(tags.value, ',')| else 0);
    ParamsCount(category, tags);
  }

  /** The columns of the `INSERT`, in placeholder order. */
  const InsertColumns: seq<string> := [
    "id", "name", "description", "latitude", "longitude", "category", "tags", "rating",
    "photos", "business_name", "business_phone", "business_website", "business_hours", "is_premium"
  ]

  /** The JSON body of `POST /api/places`; the fields the handler defaults are optional. */
  datatype PlaceBody = PlaceBody(
    id: string,
    name: string,
    description: string,
    coordinates: Coord,
    category: string,
    tags: seq<string>,
    rating: Option<real>,
    photos: Option<seq<string>>,
    businessInfo: Option<BusinessInfo>)

  /** An optional string bound as a parameter: `undefined` binds NULL. */
  function OptText(s: Option<string>): SqlValue {
    match s
    case None => Null
    case Some(v) => Text(v)
  }

  /** The five parameters taken from `businessInfo?.…`. */
  function BusinessParams(info: Option<BusinessInfo>): (params: seq<SqlValue>)
    ensures |params| == 5
  {
    match info
    case None => [Null, Null, Null, Null, Integer(0)]
    case Some(b) =>
      [Text(b.name), OptText(b.phone), OptText(b.website), OptText(b.workingHours),
       Integer(if b.isPremium then 1 else 0)]
  }

  /** The parameters `POST /api/places` binds, one per entry of `InsertColumns`. */
  function PostParams(body: PlaceBody): (params: seq<SqlValue>)
    ensures |params| == |InsertColumns|
  {
    [ Text(body.id), Text(body.name), Text(body.description),
      Real(body.coordinates.0), Real(body.coordinates.1), Text(body.category),
      Text(Json.Stringify(body.tags)),
      Real(body.rating.GetOr(0.0)),
      Text(Json.Stringify(body.photos.GetOr([]))) ]
    + BusinessParams(body.businessInfo)
  }

  /** The stored row: each column holds the parameter at its position. */
  function Bind(columns: seq<string>, values: seq<SqlValue>): (row: map<string, SqlValue>)
    requires |columns| == |values|
    ensures forall c :: c in row <==> c in columns
  {
    if columns == [] then map[]
    else Bind(columns[1..], values[1..])[columns[0] := values[0]]
  }

  /** With distinct column names the column at position `i` holds value `i`. */
  lemma {:induction false} BindAt(columns: seq<string>, values: seq<SqlValue>, i: nat)
    requires |columns| == |values| && i < |columns|
    requires forall j, k :: 0 <= j < k < |columns| ==> columns[j] != columns[k]
    ensures Bind(columns, values)[columns[i]] == values[i]
  {
    if i > 0 {
      BindAt(columns[1..], values[1..], i - 1);
    }
  }

  /** `row.x` of a row: a column that was not set reads as NULL. */
  function Column(row: map<string, SqlValue>, column: string): SqlValue {
    if column in row then row[column] else Null
  }

  /** JavaScript truthiness of a value read from the database. */
  predicate Truthy(v: SqlValue) {
    match v
    case Null => false
    case Integer(i) => i != 0
    case Real(r) => r != 0.0
    case Text(s) => s != ""
  }

  /** `JSON.parse(value || '[]')`: `None` where it throws, or for text that is not an
      array of strings. */
  function JsonList(v: SqlValue): (r: Option<seq<string>>)
    ensures !Truthy(v) ==> r == Some([])
  {
    if !Truthy(v) then Json.Parse("[]")
    else if v.Text? then Json.Parse(v.s)
    else None
  }

  /** The `businessInfo` object every returned place carries. */
  datatype ApiBusinessInfo = ApiBusinessInfo(
    name: SqlValue, phone: SqlValue, website: SqlValue, workingHours: SqlValue, isPremium: bool)

  /** A place as `GET /api/places` returns it; scalar fields pass the stored value through. */
  datatype ApiPlace = ApiPlace(
    id: SqlValue,
    name: SqlValue,
    description: SqlValue,
    coordinates: (SqlValue, SqlValue),
    category: SqlValue,
    tags: seq<string>,
    rating: SqlValue,
    photos: seq<string>,
    businessInfo: ApiBusinessInfo)

  /** The callback of `rows.map`; `None` where `JSON.parse` throws. */
  function MapRow(row: map<string, SqlValue>): Option<ApiPlace> {
    var tags := JsonList(Column(row, "tags"));
    var photos := JsonList(Column(row, "photos"));
    if tags.None? || photos.None? then None
    else Some(ApiPlace(
      Column(row, "id"), Column(row, "name"), Column(row, "description"),
      (Column(row, "latitude"), Column(row, "longitude")),
      Column(row, "category"), tags.value, Column(row, "rating"), photos.value,
      ApiBusinessInfo(Column(row, "business_name"), Column(row, "business_phone"),
        Column(row, "business_website"), Column(row, "business_hours"),
        Truthy(Column(row, "is_premium")))))
  }

  /** `rows.map(...)`: every row mapped in order, or `None` when one of them throws. */
  function MapRows(rows: seq<map<string, SqlValue>>): (r: Option<seq<ApiPlace>>)
    ensures r.Some? <==> forall i :: 0 <= i < |rows| ==> MapRow(rows[i]).Some?
    ensures r.Some? ==> |r.value| == |rows| && forall i :: 0 <= i < |rows| ==> r.value[i] == MapRow(rows[i]).value
  {
    if rows == [] then Some([])
    else
      var head := MapRow(rows[0]);
      var tail := MapRows(rows[1..]);
      if head.None? || tail.None? then
        assert tail.None? ==> exists i :: 1 <= i < |rows| && MapRow(rows[i]).None? by {
          if tail.None? {
            var j :| 0 <= j < |rows[1..]| && MapRow(rows[1..][j]).None?;
            assert rows[1..][j] == rows[j + 1];
          }
        }
        None
      else
        assert forall i :: 1 <= i < |rows| ==> rows[i] == rows[1..][i - 1];
        Some([head.value] + tail.value)
  }

  /** The place `GET` returns for a row that `POST` inserted. */
  function Expected(body: PlaceBody): ApiPlace {
    var info := body.businessInfo;
    ApiPlace(Text(body.id), Text(body.name), Text(body.description),
      (Real(body.coordinates.0), Real(body.coordinates.1)), Text(body.category),
      body.tags, Real(body.rating.GetOr(0.0)), body.photos.GetOr([]),
      ApiBusinessInfo(
        if info.Some? then Text(info.value.name) else Null,
        if info.Some? then OptText(info.value.phone) else Null,
        if info.Some? then OptText(info.value.website) else Null,
        if info.Some? then OptText(info.value.workingHours) else Null,
        info.Some? && info.value.isPremium))
  }

  /** The parameters of `POST` position by position. */
  lemma PostParamsAt(body: PlaceBody)
    ensures var p := PostParams(body);
      var info := body.businessInfo;
      p[0] == Text(body.id) && p[1] == Text(body.name) && p[2] == Text(body.description)
      && p[3] == Real(body.coordinates.0) && p[4] == Real(body.coordinates.1) && p[5] == Text(body.category)
      && p[6] == Text(Json.Stringify(body.tags)) && p[7] == Real(body.rating.GetOr(0.0))
      && p[8] == Text(Json.Stringify(body.photos.GetOr([])))
      && p[9] == (if info.Some? then Text(info.value.name) else Null)
      && p[10] == (if info.Some? then OptText(info.value.phone) else Null)
      && p[11] == (if info.Some? then OptText(info.value.website) else Null)
      && p[12] == (if info.Some? then OptText(info.value.workingHours) else Null)
      && Truthy(p[13]) == (info.Some? && info.value.isPremium)
  {
  }

  /** Reading the row column by column. */
  lemma MapRowOfParams(row: map<string, SqlValue>, params: seq<SqlValue>)
    requires |params| == |InsertColumns|
    requires forall i :: 0 <= i < |InsertColumns| ==> Column(row, InsertColumns[i]) == params[i]
    requires JsonList(params[6]).Some? && JsonList(params[8]).Some?
    ensures MapRow(row) == Some(ApiPlace(params[0], params[1], params[2], (params[3], params[4]), params[5],
      JsonList(params[6]).value, params[7], JsonList(params[8]).value,
      ApiBusinessInfo(params[9], params[10], params[11], params[12], Truthy(params[13]))))
  {
    assert Column(row, "id") == params[0] && Column(row, "name") == params[1];
    assert Column(row, "description") == params[2] && Column(row, "latitude") == params[3];
    assert Column(row, "longitude") == params[4] && Column(row, "category") == params[5];
    assert Column(row, "tags") == params[6] && Column(row, "rating") == params[7];
    assert Column(row, "photos") == params[8] && Column(row, "business_name") == params[9];
    assert Column(row, "business_phone") == params[10] && Column(row, "business_website") == params[11];
    assert Column(row, "business_hours") == params[12] && Column(row, "is_premium") == params[13];
  }

  /** A column written with `JSON.stringify` reads back as the list it encodes. */
  lemma JsonListOfStringify(xs: seq<string>)
    ensures JsonList(Text(Json.Stringify(xs))) == Some(xs)
  {
    var s := Json.Stringify(xs);
    assert Truthy(Text(s));
    Json.ParseStringify(xs);
  }

  /** Each column of the `INSERT` holds the parameter at its position. */
  lemma BindInsertColumns(params: seq<SqlValue>)
    requires |params| == |InsertColumns|
    ensures forall i :: 0 <= i < |InsertColumns| ==> Column(Bind(InsertColumns, params), InsertColumns[i]) == params[i]
  {
    ColumnsDistinct();
    forall i | 0 <= i < |InsertColumns| ensures Column(Bind(InsertColumns, params), InsertColumns[i]) == params[i] {
      BindAt(InsertColumns, params, i);
    }
  }

  lemma ColumnsDistinct()
    ensures forall j, k :: 0 <= j < k < |InsertColumns| ==> InsertColumns[j] != InsertColumns[k]
  {
  }

  /** A place inserted by `POST` reads back from `GET` with its latitude and longitude in
      the same order, its tags and photos decoded again, a missing rating as 0, and a
      `businessInfo` object even when none was sent. */
  lemma PostThenGet(body: PlaceBody)
    ensures MapRow(Bind(InsertColumns, PostParams(body))) == Some(Expected(body))
  {
    var params := PostParams(body);
    var row := Bind(InsertColumns, params);
    BindInsertColumns(params);
    PostParamsAt(body);
    JsonListOfStringify(body.tags);
    JsonListOfStringify(body.photos.GetOr([]));
    MapRowOfParams(row, params);
  }
}
