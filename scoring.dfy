/** The lead scorer: four independent sub-scores per CSV row, their rounded
    sum as the lead score, a High/Medium/Low bucket, and the batch step that
    extends every row with six score columns and stable-sorts the rows by
    descending lead score. */
module Scoring {
  import opened Wrappers
  import opened PyStr
  import opened StableSort

  /** A cell as `csv.DictReader` hands it over: `None` where a short row has no value. */
  type Cell = Option<string>

  /** A row dict: its keys in insertion order, and its cells. */
  datatype Row = Row(columns: seq<string>, cells: map<string, Cell>) {

    predicate Valid() {
      && (forall i, j :: 0 <= i < j < |columns| ==> columns[i] != columns[j])
      && (forall c :: c in columns ==> c in cells)
      && (forall c :: c in cells ==> c in columns)
    }

    /** `row.get(key, default)` */
    function Get(key: string, default: string): Cell {
      if key in cells then cells[key] else Some(default)
    }

    /** `row[key] = value`: an existing key keeps its position, a new one goes last. */
    function Set(key: string, value: string): Row {
      if key in cells then Row(columns, cells[key := Some(value)])
      else Row(columns + [key], cells[key := Some(value)])
    }
  }

  /** Assignment keeps a row well formed and leaves earlier columns in place. */
  lemma SetKeepsValid(row: Row, key: string, value: string)
    requires row.Valid()
    ensures row.Set(key, value).Valid()
    ensures var r := row.Set(key, value);
      |row.columns| <= |r.columns| && r.columns[..|row.columns|] == row.columns
    ensures key !in row.cells ==> row.Set(key, value).columns == row.columns + [key]
  {
  }

  /** The float operations the scorer uses, left uninterpreted:
      `float(text)` (None where it raises ValueError), `math.log10`,
      `round(x, 2)` and `f"{x:.2f}"`. */
  datatype Numerics = Numerics(
    parseFloat: string -> Option<real>,
    log10: real -> real,
    round2: real -> real,
    format2: real -> string)

  /** Properties of the real float operations that some lemmas rely on. */
  ghost predicate Sane(num: Numerics) {
    && (forall x :: 1.0 <= x ==> 0.0 <= num.log10(x))
    && (forall x, y :: 1.0 <= x <= y ==> num.log10(x) <= num.log10(y))
    && (forall x, y :: x <= y ==> num.round2(x) <= num.round2(y))
    && num.round2(0.0) == 0.0
    && (forall x :: num.parseFloat(num.format2(num.round2(x))) == Some(num.round2(x)))
    && num.parseFloat("0") == Some(0.0)
  }

  const HighIntentKeywords: set<string> :=
    {"hvac", "air conditioning", "furnace", "heating", "ac repair", "contractor", "mechanical"}

  function Min(a: real, b: real): real { if b < a then b else a }

  function Max(a: real, b: real): real { if b > a then b else a }

  /** `_to_float`: `float(value)`, or 0.0 where that raises. */
  function ToFloat(num: Numerics, value: Cell): real {
    match value
    case None => 0.0
    case Some(s) => num.parseFloat(s).GetOr(0.0)
  }

  /** `int(x)` on a float: truncation toward zero. */
  function TruncToInt(x: real): (n: int)
    ensures 0.0 <= x ==> 0 <= n && n as real <= x < n as real + 1.0
    ensures x < 0.0 ==> n <= 0 && n as real - 1.0 < x <= n as real
  {
    if 0.0 <= x then x.Floor else -((-x).Floor)
  }

  /** `_to_int`: `int(float(value))`, or 0 where the parse raises. */
  function ToInt(num: Numerics, value: Cell): int {
    match value
    case None => 0
    case Some(s) =>
      match num.parseFloat(s)
      case None => 0
      case Some(x) => TruncToInt(x)
  }

  /** A cell as an f-string renders it (`f"{None}"` is "None"). */
  function Text(c: Cell): string {
    match c
    case None => "None"
    case Some(s) => s
  }

  function Searchable(name: Cell, types: Cell): string {
    Lower(Text(name) + " " + Text(types))
  }

  /** The keywords that occur somewhere in `text`; a set, so each counts once. */
  function MatchedKeywords(text: string): (m: set<string>)
    ensures m <= HighIntentKeywords
    ensures forall k :: k in m <==> k in HighIntentKeywords && exists i :: OccursAt(text, k, i)
  {
    forall k | k in HighIntentKeywords {
      ContainsIffOccurs(text, k);
    }
    set k | k in HighIntentKeywords && Contains(text, k)
  }

  lemma KeywordCount()
    ensures |HighIntentKeywords| == 7
  {
    assert "furnace" != "heating" by { assert "furnace"[0] != "heating"[0]; }
    assert "contractor" != "mechanical" by { assert "contractor"[0] != "mechanical"[0]; }
  }

  /** `_keyword_score`: 1.5 per distinct keyword found in the lower-cased
      `name + " " + types`, capped at 10. */
  function KeywordScore(name: Cell, types: Cell): (score: real)
    ensures 0.0 <= score <= 10.0
    ensures var n := |MatchedKeywords(Searchable(name, types))|;
      n <= 7 && (n <= 6 ==> score == 1.5 * n as real) && (n == 7 ==> score == 10.0)
  {
    KeywordCount();
    var n := |MatchedKeywords(Searchable(name, types))|;
    assert n <= 7 by {
      var m := MatchedKeywords(Searchable(name, types));
      assert HighIntentKeywords == m + (HighIntentKeywords - m);
    }
    Min(n as real * 1.5, 10.0)
  }

  /** `_rating_score`: the rating clamped to [0, 5], times 7. */
  function RatingScore(rating: real): (score: real)
    ensures 0.0 <= score <= 35.0
    ensures 0.0 <= rating <= 5.0 ==> score == 7.0 * rating
    ensures rating < 0.0 ==> score == 0.0
    ensures 5.0 < rating ==> score == 35.0
  {
    Max(0.0, Min(rating, 5.0)) * 7.0
  }

  lemma RatingScoreMonotone(a: real, b: real)
    requires a <= b
    ensures RatingScore(a) <= RatingScore(b)
  {
  }

  /** `_review_volume_score`: 0 for no reviews, else 15·log10(count + 1) capped at 30. */
  function ReviewVolumeScore(num: Numerics, reviewCount: int): (score: real)
    ensures reviewCount <= 0 ==> score == 0.0
    ensures score <= 30.0
  {
    if reviewCount <= 0 then 0.0 else Min(num.log10((reviewCount + 1) as real) * 15.0, 30.0)
  }

  /** With a monotone, non-negative `log10` the volume score lies in [0, 30]
      and never drops as the review count grows. */
  lemma ReviewVolumeMonotone(num: Numerics, a: int, b: int)
    requires Sane(num)
    requires a <= b
    ensures 0.0 <= ReviewVolumeScore(num, a) <= ReviewVolumeScore(num, b) <= 30.0
  {
    if 0 < a {
      assert num.log10((a + 1) as real) <= num.log10((b + 1) as real);
    } else if 0 < b {
      assert 0.0 <= num.log10((b + 1) as real);
    }
  }

  /** `(status or "").upper()` */
  function NormalizedStatus(status: Cell): string {
    Upper(status.GetOr(""))
  }

  /** `_business_status_score` */
  function StatusScore(status: Cell): (score: real)
    ensures score == 10.0 <==> NormalizedStatus(status) == "OPERATIONAL"
    ensures score == 3.0 <==> NormalizedStatus(status) == "CLOSED_TEMPORARILY"
    ensures score == 0.0 <==>
      NormalizedStatus(status) != "OPERATIONAL" && NormalizedStatus(status) != "CLOSED_TEMPORARILY"
  {
    var normalized := NormalizedStatus(status);
    if normalized == "OPERATIONAL" then 10.0
    else if normalized == "CLOSED_TEMPORARILY" then 3.0
    else 0.0
  }

  /** Any casing of the two recognised statuses scores as the upper-case one. */
  lemma StatusAnyCasing(s: string)
    ensures Lower(s) == "operational" ==> StatusScore(Some(s)) == 10.0
    ensures Lower(s) == "closed_temporarily" ==> StatusScore(Some(s)) == 3.0
  {
    UpperOfLower(s);
    assert Upper("operational") == "OPERATIONAL";
    assert Upper("closed_temporarily") == "CLOSED_TEMPORARILY";
  }

  lemma StatusExamples()
    ensures StatusScore(Some("Operational")) == 10.0
    ensures StatusScore(Some("closed_Temporarily")) == 3.0
  {
    StatusAnyCasing("Operational");
    assert Lower("Operational") == "operational";
    StatusAnyCasing("closed_Temporarily");
    assert Lower("closed_Temporarily") == "closed_temporarily";
  }

  /** A permanently closed business, an empty status and a missing one score 0. */
  lemma StatusOtherExamples()
    ensures StatusScore(Some("CLOSED_PERMANENTLY")) == 0.0
    ensures StatusScore(Some("")) == 0.0
    ensures StatusScore(None) == 0.0
  {
    assert Upper("CLOSED_PERMANENTLY")[7] == 'P';
  }

  /** `_priority_bucket`: the three buckets split the real line at 40 and 60. */
  function Bucket(score: real): (p: string)
    ensures p == "High" <==> score >= 60.0
    ensures p == "Medium" <==> 40.0 <= score < 60.0
    ensures p == "Low" <==> score < 40.0
  {
    if score >= 60.0 then "High" else if score >= 40.0 then "Medium" else "Low"
  }

  /** The values one row of `score_csv` computes. */
  datatype Scores = Scores(
    rating: real, reviewVolume: real, keyword: real, status: real, lead: real, priority: string)

  function ScoresOf(num: Numerics, row: Row): Scores {
    var rating := ToFloat(num, row.Get("rating", "0"));
    var reviewCount := ToInt(num, row.Get("user_ratings_total", "0"));
    var keyword := KeywordScore(row.Get("name", ""), row.Get("types", ""));
    var ratingScore := RatingScore(rating);
    var volume := ReviewVolumeScore(num, reviewCount);
    var status := StatusScore(row.Get("business_status", ""));
    var lead := num.round2(ratingScore + volume + keyword + status);
    Scores(ratingScore, volume, keyword, status, lead, Bucket(lead))
  }

  /** The columns `score_csv` adds, in the order it adds them. */
  const ScoreColumns: seq<string> :=
    ["rating_score", "review_volume_score", "keyword_score", "status_score", "lead_score", "priority"]

  /** `row[keys[0]] = vals[0]; row[keys[1]] = vals[1]; ...` in that order. */
  function SetAll(row: Row, keys: seq<string>, vals: seq<string>): Row
    requires |keys| == |vals|
    decreases |keys|
  {
    if keys == [] then row else SetAll(row.Set(keys[0], vals[0]), keys[1..], vals[1..])
  }

  predicate Distinct(keys: seq<string>) {
    forall i, j :: 0 <= i < j < |keys| ==> keys[i] != keys[j]
  }

  lemma {:induction false} SetAllCells(row: Row, keys: seq<string>, vals: seq<string>)
    requires |keys| == |vals| && Distinct(keys)
    ensures var out := SetAll(row, keys, vals);
      && (forall k :: k in out.cells <==> k in row.cells || k in keys)
      && (forall k :: k in row.cells && k !in keys ==> out.cells[k] == row.cells[k])
      && (forall i :: 0 <= i < |keys| ==> out.cells[keys[i]] == Some(vals[i]))
    decreases |keys|
  {
    if keys != [] {
      var r1 := row.Set(keys[0], vals[0]);
      SetAllCells(r1, keys[1..], vals[1..]);
      assert forall k :: k in keys <==> k == keys[0] || k in keys[1..];
      forall i | 0 <= i < |keys|
        ensures SetAll(row, keys, vals).cells[keys[i]] == Some(vals[i])
      {
        if i > 0 {
          assert keys[1..][i - 1] == keys[i];
        } else {
          assert keys[0] !in keys[1..];
        }
      }
    }
  }

  lemma {:induction false} SetAllColumns(row: Row, keys: seq<string>, vals: seq<string>)
    requires |keys| == |vals|
    requires row.Valid()
    ensures var out := SetAll(row, keys, vals);
      && out.Valid()
      && |row.columns| <= |out.columns| && out.columns[..|row.columns|] == row.columns
    decreases |keys|
  {
    if keys != [] {
      var r1 := row.Set(keys[0], vals[0]);
      SetKeepsValid(row, keys[0], vals[0]);
      SetAllColumns(r1, keys[1..], vals[1..]);
      var out := SetAll(r1, keys[1..], vals[1..]);
      assert out.columns[..|row.columns|] == out.columns[..|r1.columns|][..|row.columns|];
    }
  }

  /** Keys that are all new are appended, in order, after the existing columns. */
  lemma {:induction false} SetAllAppends(row: Row, keys: seq<string>, vals: seq<string>)
    requires |keys| == |vals| && Distinct(keys)
    requires forall k :: k in keys ==> k !in row.cells
    ensures SetAll(row, keys, vals).columns == row.columns + keys
    decreases |keys|
  {
    if keys != [] {
      var r1 := row.Set(keys[0], vals[0]);
      assert keys[0] !in keys[1..];
      assert r1.columns == row.columns + [keys[0]];
      assert forall k :: k in keys[1..] ==> k in keys;
      SetAllAppends(r1, keys[1..], vals[1..]);
      assert row.columns + [keys[0]] + keys[1..] == row.columns + keys;
    }
  }

  lemma ScoreColumnsDistinct()
    ensures Distinct(ScoreColumns)
  {
    assert ScoreColumns[0][0] != ScoreColumns[3][0];
  }

  /** The values `score_csv` writes into the six score columns, in order. */
  function ScoreTexts(num: Numerics, s: Scores): (v: seq<string>)
    ensures |v| == 6
  {
    [num.format2(s.rating), num.format2(s.reviewVolume), num.format2(s.keyword),
     num.format2(s.status), num.format2(s.lead), s.priority]
  }

  /** One row after the six assignments of the scoring loop. */
  function ScoreRow(num: Numerics, row: Row): Row {
    SetAll(row, ScoreColumns, ScoreTexts(num, ScoresOf(num, row)))
  }

  /** `ScoreRow` is the six assignments of the scoring loop, one after another. */
  lemma ScoreRowUnfold(num: Numerics, row: Row)
    ensures var s := ScoresOf(num, row);
      ScoreRow(num, row) ==
        row.Set("rating_score", num.format2(s.rating))
           .Set("review_volume_score", num.format2(s.reviewVolume))
           .Set("keyword_score", num.format2(s.keyword))
           .Set("status_score", num.format2(s.status))
           .Set("lead_score", num.format2(s.lead))
           .Set("priority", s.priority)
  {
    var v := ScoreTexts(num, ScoresOf(num, row));
    var k := ScoreColumns;
    var r0 := row;
    var r1 := r0.Set(k[0], v[0]);
    var r2 := r1.Set(k[1], v[1]);
    var r3 := r2.Set(k[2], v[2]);
    var r4 := r3.Set(k[3], v[3]);
    var r5 := r4.Set(k[4], v[4]);
    var r6 := r5.Set(k[5], v[5]);
    assert SetAll(r5, k[5..], v[5..]) == r6 by {
      assert SetAll(r6, k[6..], v[6..]) == r6;
    }
    assert SetAll(r4, k[4..], v[4..]) == r6 by {
      assert k[4..][1..] == k[5..] && v[4..][1..] == v[5..];
    }
    assert SetAll(r3, k[3..], v[3..]) == r6 by {
      assert k[3..][1..] == k[4..] && v[3..][1..] == v[4..];
    }
    assert SetAll(r2, k[2..], v[2..]) == r6 by {
      assert k[2..][1..] == k[3..] && v[2..][1..] == v[3..];
    }
    assert SetAll(r1, k[1..], v[1..]) == r6 by {
      assert k[1..][1..] == k[2..] && v[1..][1..] == v[2..];
    }
  }

  /** Scoring extends a row: the six score cells are set, every other cell
      and the position of every existing column are kept, and a row without
      score columns gets them appended in order. */
  lemma ScoreRowExtends(num: Numerics, row: Row)
    requires row.Valid()
    ensures var out := ScoreRow(num, row); var v := ScoreTexts(num, ScoresOf(num, row));
      && out.Valid()
      && (forall k :: k in out.cells <==> k in row.cells || k in ScoreColumns)
      && (forall k :: k in row.cells && k !in ScoreColumns ==> out.cells[k] == row.cells[k])
      && (forall i :: 0 <= i < 6 ==> out.cells[ScoreColumns[i]] == Some(v[i]))
      && |row.columns| <= |out.columns| && out.columns[..|row.columns|] == row.columns
      && ((forall c :: c in ScoreColumns ==> c !in row.cells) ==> out.columns == row.columns + ScoreColumns)
  {
    var v := ScoreTexts(num, ScoresOf(num, row));
    ScoreColumnsDistinct();
    SetAllCells(row, ScoreColumns, v);
    SetAllColumns(row, ScoreColumns, v);
    if forall c :: c in ScoreColumns ==> c !in row.cells {
      SetAllAppends(row, ScoreColumns, v);
    }
  }

  /** The lead score is the rounded sum of the four sub-scores, and the
      priority is the bucket of that rounded value. */
  lemma LeadAndPriority(num: Numerics, row: Row)
    ensures var s := ScoresOf(num, row);
      && s.lead == num.round2(s.rating + s.reviewVolume + s.keyword + s.status)
      && (s.priority == "High" <==> s.lead >= 60.0)
      && (s.priority == "Medium" <==> 40.0 <= s.lead < 60.0)
      && (s.priority == "Low" <==> s.lead < 40.0)
  {
  }

  /** All sub-scores are non-negative, their sum is at most 85, and so the
      lead score lies between round(0, 2) = 0 and round(85, 2). */
  lemma LeadScoreBounds(num: Numerics, row: Row)
    requires Sane(num)
    ensures var s := ScoresOf(num, row);
      && 0.0 <= s.rating <= 35.0 && 0.0 <= s.reviewVolume <= 30.0
      && 0.0 <= s.keyword <= 10.0 && 0.0 <= s.status <= 10.0
      && 0.0 <= s.lead <= num.round2(85.0)
  {
    var s := ScoresOf(num, row);
    ReviewVolumeMonotone(num, ToInt(num, row.Get("user_ratings_total", "0")),
                              ToInt(num, row.Get("user_ratings_total", "0")));
    var sum := s.rating + s.reviewVolume + s.keyword + s.status;
    assert 0.0 <= sum <= 85.0;
    assert num.round2(0.0) <= num.round2(sum) <= num.round2(85.0);
  }

  /** A cell the scorer cannot read as a number. */
  predicate Unparseable(num: Numerics, c: Cell) {
    c.None? || num.parseFloat(c.value).None?
  }

  /** A rating that is not a number reads as 0.0 and scores 0, whatever the other cells hold. */
  lemma MalformedRatingDegrades(num: Numerics, row: Row)
    requires Unparseable(num, row.Get("rating", "0"))
    ensures ToFloat(num, row.Get("rating", "0")) == 0.0
    ensures ScoresOf(num, row).rating == 0.0
  {
  }

  /** A review count that is not a number reads as 0 and scores 0, whatever the other cells hold. */
  lemma MalformedReviewCountDegrades(num: Numerics, row: Row)
    requires Unparseable(num, row.Get("user_ratings_total", "0"))
    ensures ToInt(num, row.Get("user_ratings_total", "0")) == 0
    ensures ScoresOf(num, row).reviewVolume == 0.0
  {
  }

  /** Keyword scoring ignores case: inputs that lower-case alike score alike. */
  lemma KeywordCaseInsensitive(n1: Cell, t1: Cell, n2: Cell, t2: Cell)
    requires Lower(Text(n1)) == Lower(Text(n2)) && Lower(Text(t1)) == Lower(Text(t2))
    ensures KeywordScore(n1, t1) == KeywordScore(n2, t2)
  {
    LowerConcat(Text(n1), " " + Text(t1));
    LowerConcat(" ", Text(t1));
    LowerConcat(Text(n2), " " + Text(t2));
    LowerConcat(" ", Text(t2));
    assert Text(n1) + " " + Text(t1) == Text(n1) + (" " + Text(t1));
    assert Text(n2) + " " + Text(t2) == Text(n2) + (" " + Text(t2));
    assert Searchable(n1, t1) == Searchable(n2, t2);
  }

  /** In particular, upper-casing name and types does not change the score. */
  lemma KeywordUpperCase(name: string, types: string)
    ensures KeywordScore(Some(Upper(name)), Some(Upper(types))) == KeywordScore(Some(name), Some(types))
  {
    LowerOfUpper(name);
    LowerOfUpper(types);
    KeywordCaseInsensitive(Some(Upper(name)), Some(Upper(types)), Some(name), Some(types));
  }

  /** Three distinct keywords give 4.5, however often each one occurs. */
  lemma ThreeMatches(name: Cell, types: Cell)
    requires |MatchedKeywords(Searchable(name, types))| == 3
    ensures KeywordScore(name, types) == 4.5
  {
  }

  lemma SearchableTagsFirst()
    ensures Searchable(Some("Air"), Some("conditioning,x")) == "air conditioning,x"
  {
  }

  lemma SearchableTagsSwapped()
    ensures Searchable(Some("Air"), Some("x,conditioning")) == "air x,conditioning"
  {
  }

  lemma SwappedMisses()
    ensures !Contains("air x,conditioning", "air conditioning")
  {
    var k := "air conditioning";
    var swapped := "air x,conditioning";
    ContainsIffOccurs(swapped, k);
    forall i ensures !OccursAt(swapped, k, i) {
      if 0 <= i <= 2 {
        MismatchAt(swapped, k, i, 4 - i);
      }
    }
  }

  /** The order of the tags matters: a keyword can span the boundary between
      the name and the first tag, so swapping tags can lose a match. */
  lemma TagOrderMatters()
    ensures "air conditioning" in MatchedKeywords(Searchable(Some("Air"), Some("conditioning,x")))
    ensures "air conditioning" !in MatchedKeywords(Searchable(Some("Air"), Some("x,conditioning")))
  {
    SearchableTagsFirst();
    SearchableTagsSwapped();
    SwappedMisses();
    assert "air conditioning,x"[..16] == "air conditioning";
  }

  /** A cell holding a sort key: `float(row["lead_score"])`, None where that raises. */
  function LeadKey(num: Numerics, row: Row): Option<real> {
    if "lead_score" in row.cells && row.cells["lead_score"].Some? then
      num.parseFloat(row.cells["lead_score"].value)
    else None
  }

  /** The sort key; its default is never used on rows whose keys all parse. */
  function SortKey(num: Numerics): Row -> real {
    row => LeadKey(num, row).GetOr(0.0)
  }

  /** With real floats the stored lead score parses back to the rounded value. */
  lemma LeadKeyOfScoredRow(num: Numerics, row: Row)
    requires Sane(num)
    ensures LeadKey(num, ScoreRow(num, row)) == Some(ScoresOf(num, row).lead)
    ensures SortKey(num)(ScoreRow(num, row)) == ScoresOf(num, row).lead
  {
    var s := ScoresOf(num, row);
    var v := ScoreTexts(num, s);
    ScoreColumnsDistinct();
    SetAllCells(row, ScoreColumns, v);
    assert ScoreColumns[4] == "lead_score";
    assert ScoreRow(num, row).cells["lead_score"] == Some(num.format2(s.lead));
    assert num.parseFloat(num.format2(num.round2(s.rating + s.reviewVolume + s.keyword + s.status)))
      == Some(s.lead);
  }

  /** `[f(r) for r in rows]`, built from the back as the scoring loop appends. */
  function MapRows(f: Row -> Row, rows: seq<Row>): seq<Row>
    decreases |rows|
  {
    if rows == [] then [] else MapRows(f, rows[..|rows| - 1]) + [f(rows[|rows| - 1])]
  }

  lemma {:induction false} MapRowsAt(f: Row -> Row, rows: seq<Row>)
    ensures |MapRows(f, rows)| == |rows|
    ensures forall j :: 0 <= j < |rows| ==> MapRows(f, rows)[j] == f(rows[j])
    decreases |rows|
  {
    if rows != [] {
      MapRowsAt(f, rows[..|rows| - 1]);
    }
  }

  lemma MapRowsSnoc(f: Row -> Row, rows: seq<Row>, i: int)
    requires 0 <= i < |rows|
    ensures MapRows(f, rows[..i + 1]) == MapRows(f, rows[..i]) + [f(rows[i])]
  {
    assert rows[..i + 1][..i] == rows[..i];
  }

  function Scorer(num: Numerics): Row -> Row {
    row => ScoreRow(num, row)
  }

  /** The rows of the scoring loop's `scored_rows`, in input order. */
  function ScoreAll(num: Numerics, rows: seq<Row>): seq<Row> {
    MapRows(Scorer(num), rows)
  }

  /** Scoring keeps one output row per input row, each the scored input row. */
  lemma ScoreAllAt(num: Numerics, rows: seq<Row>)
    ensures |ScoreAll(num, rows)| == |rows|
    ensures forall j :: 0 <= j < |rows| ==> ScoreAll(num, rows)[j] == ScoreRow(num, rows[j])
  {
    MapRowsAt(Scorer(num), rows);
  }

  datatype ScoreError = InvalidLeadScore

  /** What `score_csv` writes: the header (none if empty) and the ranked rows. */
  datatype ScoredCsv = ScoredCsv(fieldnames: seq<string>, rows: seq<Row>)

  /** The body of the scoring loop: computes the four sub-scores of one row,
      their rounded sum and its bucket, and assigns the six score cells. */
  method ScoreOne(num: Numerics, row0: Row) returns (row: Row)
    ensures row == ScoreRow(num, row0)
  {
    row := row0;
    var rating := ToFloat(num, row.Get("rating", "0"));
    var reviewCount := ToInt(num, row.Get("user_ratings_total", "0"));
    var keywordScore := KeywordScore(row.Get("name", ""), row.Get("types", ""));
    var ratingScore := RatingScore(rating);
    var reviewVolumeScore := ReviewVolumeScore(num, reviewCount);
    var statusScore := StatusScore(row.Get("business_status", ""));
    var leadScore := num.round2(ratingScore + reviewVolumeScore + keywordScore + statusScore);
    ghost var s := ScoresOf(num, row0);
    assert ratingScore == s.rating && reviewVolumeScore == s.reviewVolume;
    assert keywordScore == s.keyword && statusScore == s.status;
    assert leadScore == s.lead && Bucket(leadScore) == s.priority;
    row := row.Set("rating_score", num.format2(ratingScore));
    row := row.Set("review_volume_score", num.format2(reviewVolumeScore));
    row := row.Set("keyword_score", num.format2(keywordScore));
    row := row.Set("status_score", num.format2(statusScore));
    row := row.Set("lead_score", num.format2(leadScore));
    row := row.Set("priority", Bucket(leadScore));
    ScoreRowUnfold(num, row0);
  }

  /** The scoring loop of `score_csv`: every row scored, in input order. */
  method ScoreRows(num: Numerics, rows: seq<Row>) returns (scoredRows: seq<Row>)
    ensures scoredRows == ScoreAll(num, rows)
  {
    scoredRows := [];
    for i := 0 to |rows|
      invariant scoredRows == ScoreAll(num, rows[..i])
    {
      var row := ScoreOne(num, rows[i]);
      MapRowsSnoc(Scorer(num), rows, i);
      scoredRows := scoredRows + [row];
    }
    assert rows[..|rows|] == rows;
  }

  /** `score_csv` once the input CSV has been read into `rows`. */
  method ScoreCsv(num: Numerics, rows: seq<Row>) returns (res: Result<ScoredCsv, ScoreError>)
    ensures res.Failure? <==> exists j :: 0 <= j < |rows| && LeadKey(num, ScoreRow(num, rows[j])).None?
    ensures res.Failure? ==> res.error == InvalidLeadScore
    ensures res.Success? ==>
      var out := res.value.rows;
      && out == SortDesc(ScoreAll(num, rows), SortKey(num))
      && |out| == |rows|
      && multiset(out) == multiset(ScoreAll(num, rows))
      && NonIncreasing(out, SortKey(num))
      && SameOrderPerKey(out, ScoreAll(num, rows), SortKey(num))
      && res.value.fieldnames == (if rows == [] then [] else out[0].columns)
  {
    var scoredRows := ScoreRows(num, rows);
    ScoreAllAt(num, rows);
    if exists j :: 0 <= j < |scoredRows| && LeadKey(num, scoredRows[j]).None? {
      return Failure(InvalidLeadScore);
    }
    var key := SortKey(num);
    scoredRows := SortDesc(scoredRows, key);
    SortDescCorrect(ScoreAll(num, rows), key);
    var fieldnames := if |scoredRows| > 0 then scoredRows[0].columns else [];
    res := Success(ScoredCsv(fieldnames, scoredRows));
  }

  /** With real floats and a well-formed input `score_csv` never fails, and
      its rows are ordered by their rounded lead scores. */
  lemma ScoreCsvSucceeds(num: Numerics, rows: seq<Row>)
    requires Sane(num)
    ensures forall j :: 0 <= j < |rows| ==> LeadKey(num, ScoreRow(num, rows[j])).Some?
    ensures forall j :: 0 <= j < |rows| ==>
      SortKey(num)(ScoreRow(num, rows[j])) == ScoresOf(num, rows[j]).lead
  {
    forall j | 0 <= j < |rows|
      ensures LeadKey(num, ScoreRow(num, rows[j])).Some?
      ensures SortKey(num)(ScoreRow(num, rows[j])) == ScoresOf(num, rows[j]).lead
    {
      LeadKeyOfScoredRow(num, rows[j]);
    }
  }

  /** Scoring a row read under a header without score columns appends the
      six score columns to that header. */
  lemma ScoredColumns(num: Numerics, row: Row)
    requires row.Valid()
    requires forall c :: c in ScoreColumns ==> c !in row.columns
    ensures ScoreRow(num, row).columns == row.columns + ScoreColumns
  {
    ScoreColumnsDistinct();
    SetAllAppends(row, ScoreColumns, ScoreTexts(num, ScoresOf(num, row)));
  }

  /** Rows read under one header without score columns come out, in any
      order, with that header followed by the six score columns; this is the
      header `score_csv` writes for a non-empty input. */
  lemma ScoredHeader(num: Numerics, rows: seq<Row>, header: seq<string>)
    requires forall j :: 0 <= j < |rows| ==> rows[j].Valid() && rows[j].columns == header
    requires forall c :: c in ScoreColumns ==> c !in header
    ensures forall r :: r in SortDesc(ScoreAll(num, rows), SortKey(num)) ==> r.columns == header + ScoreColumns
  {
    var all := ScoreAll(num, rows);
    MapRowsAt(Scorer(num), rows);
    forall j | 0 <= j < |all| ensures all[j].columns == header + ScoreColumns {
      ScoredColumns(num, rows[j]);
    }
    SortDescCorrect(all, SortKey(num));
    forall r | r in SortDesc(all, SortKey(num)) ensures r.columns == header + ScoreColumns {
      assert r in multiset(all);
    }
  }

  /** Assignments to the same keys give rows with the same columns the same
      columns, whatever values are assigned. */
  lemma {:induction false} SetAllSameColumns(r1: Row, r2: Row, keys: seq<string>, v1: seq<string>, v2: seq<string>)
    requires |keys| == |v1| == |v2|
    requires r1.Valid() && r2.Valid() && r1.columns == r2.columns
    ensures SetAll(r1, keys, v1).columns == SetAll(r2, keys, v2).columns
    decreases |keys|
  {
    if keys != [] {
      SetKeepsValid(r1, keys[0], v1[0]);
      SetKeepsValid(r2, keys[0], v2[0]);
      assert keys[0] in r1.cells <==> keys[0] in r2.cells;
      SetAllSameColumns(r1.Set(keys[0], v1[0]), r2.Set(keys[0], v2[0]), keys[1..], v1[1..], v2[1..]);
    }
  }

  /** The header `score_csv` writes fits every row it writes, also when the
      input already holds score columns and lines 79-84 overwrite them. */
  lemma SortedHeaderFits(num: Numerics, rows: seq<Row>, header: seq<string>)
    requires forall j :: 0 <= j < |rows| ==> rows[j].Valid() && rows[j].columns == header
    ensures var out := SortDesc(ScoreAll(num, rows), SortKey(num));
      forall i :: 0 <= i < |out| ==> out[i].columns == out[0].columns
  {
    var all := ScoreAll(num, rows);
    var out := SortDesc(all, SortKey(num));
    SortDescCorrect(all, SortKey(num));
    if rows != [] {
      var c := ScoreRow(num, rows[0]).columns;
      MapRowsAt(Scorer(num), rows);
      forall j | 0 <= j < |all| ensures all[j].columns == c {
        SetAllSameColumns(rows[j], rows[0], ScoreColumns,
          ScoreTexts(num, ScoresOf(num, rows[j])), ScoreTexts(num, ScoresOf(num, rows[0])));
      }
      forall i | 0 <= i < |out| ensures out[i].columns == c {
        assert out[i] in multiset(all);
      }
    }
  }
}
