/**
 * The pure parts of src/components/PDFExporter.tsx: the guard on a missing route,
 * the difficulty label, the star line printed for each place and the name of the
 * saved file. JavaScript strings are sequences of UTF-16 code units, so a
 * character outside the Basic Multilingual Plane counts as two units here.
 */
module PDFExporter {
  import opened Wrappers
  import opened Types

  /** The error `String.prototype.repeat` raises for a negative count. */
  datatype StarsError = RangeError

  /** The difficulty line of the document. */
  function DifficultyLabel(d: Difficulty): string {
    match d
    case Easy => "Легкий"
    case Medium => "Средний"
    case Hard => "Сложный"
  }

  /** The three difficulties print three different labels. */
  lemma DifficultyLabelInjective(a: Difficulty, b: Difficulty)
    requires DifficultyLabel(a) == DifficultyLabel(b)
    ensures a == b
  {
    assert DifficultyLabel(Medium)[1] != DifficultyLabel(Hard)[1];
  }

  /** `'★'.repeat(n)`, which throws for a negative count. */
  function RepeatStar(c: char, n: int): (r: Result<string, StarsError>)
    ensures r.Ok? <==> n >= 0
    ensures r.Ok? ==> |r.value| == n && forall i :: 0 <= i < n ==> r.value[i] == c
  {
    if n < 0 then Err(RangeError)
    else if n == 0 then Ok("")
    else Ok([c] + RepeatStar(c, n - 1).value)
  }

  /** The rating line `'★'.repeat(floor) + '☆'.repeat(5 - floor)`; the left call runs first. */
  function StarLine(rating: real): Result<string, StarsError> {
    var full := rating.Floor;
    var filled := RepeatStar('★', full);
    if filled.Err? then Err(filled.error)
    else
      var empty := RepeatStar('☆', 5 - full);
      if empty.Err? then Err(empty.error)
      else Ok(filled.value + empty.value)
  }

  /** For a floor between 0 and 5 the line is that many filled stars followed by empty
      ones, five symbols in all; any other floor makes `repeat` throw. */
  lemma StarLineShape(rating: real)
    ensures StarLine(rating).Ok? <==> 0 <= rating.Floor <= 5
    ensures StarLine(rating).Ok? ==>
      var line := StarLine(rating).value;
      |line| == 5
      && (forall i :: 0 <= i < rating.Floor ==> line[i] == '★')
      && (forall i :: rating.Floor <= i < 5 ==> line[i] == '☆')
  {
    var full := rating.Floor;
    if 0 <= full <= 5 {
      var a := RepeatStar('★', full).value;
      var b := RepeatStar('☆', 5 - full).value;
      assert forall i :: full <= i < 5 ==> (a + b)[i] == b[i - full];
    }
  }

  /** The code units the pattern `[^a-zA-Zа-яА-Я0-9]` does not match; а-я and А-Я
      together span U+0410 to U+044F, so 'ё' (U+0451) and 'Ё' (U+0401) are not kept. */
  predicate Kept(c: char) {
    ('a' <= c <= 'z') || ('A' <= c <= 'Z') || ('А' <= c <= 'я') || ('0' <= c <= '9')
  }

  /** A character outside the Basic Multilingual Plane is a surrogate pair in UTF-16. */
  function Utf16Length(s: string): nat {
    if s == [] then 0 else (if s[0] as int > 0xFFFF then 2 else 1) + Utf16Length(s[1..])
  }

  /** `name.replace(/[^a-zA-Zа-яА-Я0-9]/g, '_')`: every code unit the pattern matches
      becomes '_', so a surrogate pair becomes two. */
  function Sanitize(s: string): (r: string)
    ensures |r| == Utf16Length(s)
    ensures forall i :: 0 <= i < |r| ==> Kept(r[i]) || r[i] == '_'
  {
    if s == [] then ""
    else
      var head := if Kept(s[0]) then [s[0]] else if s[0] as int > 0xFFFF then "__" else "_";
      head + Sanitize(s[1..])
  }

  /** The sanitiser works code unit by code unit: on a name without surrogate pairs the
      result has the same length and each position is kept or replaced by '_'. */
  lemma {:induction false} SanitizeByPosition(s: string)
    requires forall i :: 0 <= i < |s| ==> s[i] as int <= 0xFFFF
    ensures |Sanitize(s)| == |s|
    ensures forall i :: 0 <= i < |s| ==> Sanitize(s)[i] == if Kept(s[i]) then s[i] else '_'
  {
    if s != [] {
      SanitizeByPosition(s[1..]);
      var r := Sanitize(s);
      var head := if Kept(s[0]) then [s[0]] else "_";
      assert r == head + Sanitize(s[1..]);
      forall i | 0 < i < |s| ensures r[i] == if Kept(s[i]) then s[i] else '_' {
        assert r[i] == Sanitize(s[1..])[i - 1];
        assert s[i] == s[1..][i - 1];
      }
    }
  }

  /** A string made of kept characters and '_' is left as it is. */
  lemma {:induction false} SanitizeFixed(s: string)
    requires forall i :: 0 <= i < |s| ==> Kept(s[i]) || s[i] == '_'
    ensures Sanitize(s) == s
  {
    if s != [] {
      assert forall i :: 0 <= i < |s[1..]| ==> s[1..][i] == s[i + 1];
      SanitizeFixed(s[1..]);
      assert s == [s[0]] + s[1..];
    }
  }

  /** Sanitising twice gives the same name as sanitising once. */
  lemma SanitizeIdempotent(s: string)
    ensures Sanitize(Sanitize(s)) == Sanitize(s)
  {
    SanitizeFixed(Sanitize(s));
  }

  /** 'ё' lies outside а-я and is replaced. */
  lemma YoIsReplaced()
    ensures Sanitize("ё") == "_"
  {
    assert !Kept('ё');
  }

  /** The star lines of `route.places.forEach(...)`, place by place: the first place whose
      line throws ends the loop with that error. */
  function StarLines(places: seq<Place>): (r: Result<seq<string>, StarsError>)
    ensures r.Err? <==> exists i :: 0 <= i < |places| && StarLine(places[i].rating).Err?
    ensures r.Ok? ==> |r.value| == |places|
                      && forall i :: 0 <= i < |places| ==> r.value[i] == StarLine(places[i].rating).value
  {
    if places == [] then Ok([])
    else
      var head := StarLine(places[0].rating);
      if head.Err? then Err(head.error)
      else
        var rest := StarLines(places[1..]);
        assert rest.Err? ==> exists i :: 0 <= i < |places| && StarLine(places[i].rating).Err? by {
          if rest.Err? {
            var i :| 0 <= i < |places[1..]| && StarLine(places[1..][i].rating).Err?;
            assert places[i + 1] == places[1..][i];
          }
        }
        assert rest.Ok? ==> forall i :: 0 < i < |places| ==> StarLine(places[i].rating).Ok? by {
          if rest.Ok? {
            forall i | 0 < i < |places| ensures StarLine(places[i].rating).Ok? {
              assert places[i] == places[1..][i - 1];
            }
          }
        }
        if rest.Err? then Err(rest.error) else Ok([head.value] + rest.value)
  }

  /** What `generatePDF` ends with: nothing without a route, the error `repeat` throws
      while drawing a place, or the document saved under a file name. */
  datatype Export = NoRoute | Failed(error: StarsError) | Saved(fileName: string)

  /** `generatePDF` returns at once without a route; with one it draws every place,
      which throws on the first place whose star line cannot be built, and otherwise
      saves the document under the sanitised route name with the ".pdf" extension. */
  function ExportFileName(route: Option<Route>): (e: Export)
    ensures route.None? <==> e == NoRoute
    ensures e.Failed? <==> route.Some? && exists i :: 0 <= i < |route.value.places|
                                                       && StarLine(route.value.places[i].rating).Err?
    ensures e.Saved? ==> e.fileName == Sanitize(route.value.name) + ".pdf"
                         && |e.fileName| == Utf16Length(route.value.name) + 4
  {
    match route
    case None => NoRoute
    case Some(r) =>
      var lines := StarLines(r.places);
      if lines.Err? then Failed(lines.error) else Saved(Sanitize(r.name) + ".pdf")
  }

  /** A route is saved exactly when every place's rating has a floor between 0 and 5. */
  lemma ExportSavedIffRatingsInRange(route: Route)
    ensures ExportFileName(Some(route)).Saved? <==>
              forall i :: 0 <= i < |route.places| ==> 0 <= route.places[i].rating.Floor <= 5
  {
    forall i | 0 <= i < |route.places| {
      StarLineShape(route.places[i].rating);
    }
  }
}
