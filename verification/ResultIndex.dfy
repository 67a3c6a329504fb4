// Matching a pick to a tennis result: an index by unordered player pair and date,
// and the date discipline of its lookup.

module ResultIndex {
  import opened Common

  // `date` counts days; `rest` stands for the columns no code here reads.
  datatype Row<D> = Row(winner: string, loser: string, date: int, completed: bool, comment: string,
                        winnerGames: Option<int>, loserGames: Option<int>, winnerSets: Option<int>,
                        loserSets: Option<int>, rest: D)

  datatype Reason = Matched | DegenerateNames | NoCounterpart | AmbiguousAdjacent | AmbiguousSameDate | NoRowNearby

  datatype Answer<D> = Answer(row: Option<Row<D>>, reason: Reason)

  // ----- names ----------------------------------------------------------------

  // Lexicographic order on names.
  predicate Less(a: string, b: string) {
    if b == "" then false
    else if a == "" then true
    else if a[0] != b[0] then a[0] < b[0]
    else Less(a[1..], b[1..])
  }

  lemma {:induction false} LessIsTotal(a: string, b: string)
    ensures a != b ==> (Less(a, b) <==> !Less(b, a))
    ensures !(Less(a, b) && Less(b, a))
  {
    if a != "" && b != "" && a[0] == b[0] {
      LessIsTotal(a[1..], b[1..]);
      assert a == [a[0]] + a[1..] && b == [b[0]] + b[1..];
    }
  }

  type Pair = (string, string)

  function PairOf(a: string, b: string): Pair { if Less(a, b) then (a, b) else (b, a) }

  lemma PairIsUnordered(a: string, b: string, c: string, d: string)
    requires a != b && c != d
    ensures PairOf(a, b) == PairOf(b, a)
    ensures PairOf(a, b) == PairOf(c, d) <==> (a == c && b == d) || (a == d && b == c)
  {
    LessIsTotal(a, b);
    LessIsTotal(c, d);
  }

  predicate Proper(a: string, b: string) { a != "" && b != "" && a != b }

  // ----- the index -----------------------------------------------------------------

  type Index<D> = map<Pair, map<int, seq<Row<D>>>>

  function Bucket<D>(index: Index<D>, p: Pair, date: int): seq<Row<D>> {
    if p in index && date in index[p] then index[p][date] else []
  }

  // A row of this pair of canonical names on this date.
  predicate IsOn<D>(canon: string -> string, row: Row<D>, p: Pair, date: int) {
    Proper(canon(row.winner), canon(row.loser)) && PairOf(canon(row.winner), canon(row.loser)) == p && row.date == date
  }

  function On<D>(canon: string -> string, rows: seq<Row<D>>, p: Pair, date: int): seq<Row<D>> {
    if rows == [] then []
    else
      var before := On(canon, rows[..|rows| - 1], p, date);
      if IsOn(canon, rows[|rows| - 1], p, date) then before + [rows[|rows| - 1]] else before
  }

  ghost predicate Indexes<D>(canon: string -> string, rows: seq<Row<D>>, index: Index<D>) {
    && (forall p: Pair, date: int :: Bucket(index, p, date) == On(canon, rows, p, date))
    && (forall p :: p in index ==> exists date :: date in index[p] && index[p][date] != [])
  }

  method BuildResultIndex<D>(canon: string -> string, rows: seq<Row<D>>) returns (index: Index<D>)
    ensures Indexes(canon, rows, index)
  {
    index := map[];
    for n := 0 to |rows|
      invariant Indexes(canon, rows[..n], index)
    {
      var row := rows[n];
      var cw, cl := canon(row.winner), canon(row.loser);
      assert rows[..n + 1][..n] == rows[..n];
      if cw == "" || cl == "" || cw == cl { continue; }
      var pair := if Less(cw, cl) then (cw, cl) else (cl, cw);
      var byDate := if pair in index then index[pair] else map[];
      var bucket := if row.date in byDate then byDate[row.date] else [];
      assert bucket == Bucket(index, pair, row.date);
      IndexGrows(canon, rows[..n], row, index, pair, byDate, bucket);
      assert rows[..n + 1] == rows[..n] + [row];
      index := index[pair := byDate[row.date := bucket + [row]]];
    }
    assert rows[..|rows|] == rows;
  }

  lemma IndexGrows<D>(canon: string -> string, rows: seq<Row<D>>, row: Row<D>, index: Index<D>, pair: Pair,
                      byDate: map<int, seq<Row<D>>>, bucket: seq<Row<D>>)
    requires Indexes(canon, rows, index) && IsOn(canon, row, pair, row.date)
    requires byDate == (if pair in index then index[pair] else map[])
    requires bucket == Bucket(index, pair, row.date)
    ensures Indexes(canon, rows + [row], index[pair := byDate[row.date := bucket + [row]]])
  {
    var next := index[pair := byDate[row.date := bucket + [row]]];
    assert (rows + [row])[..|rows|] == rows;
    forall p: Pair, date: int ensures Bucket(next, p, date) == On(canon, rows + [row], p, date) {
      assert Bucket(index, p, date) == On(canon, rows, p, date);
    }
    forall p | p in next ensures exists date :: date in next[p] && next[p][date] != [] {
      if p == pair { assert row.date in next[p] && next[p][row.date] != []; }
    }
  }

  // ----- the lookup ------------------------------------------------------------------

  predicate AllSame<D(==)>(rows: seq<Row<D>>) { forall i :: 0 < i < |rows| ==> rows[i] == rows[0] }

  function UniqueRow<D(==)>(rows: seq<Row<D>>): Answer<D>
    requires rows != []
  {
    if |rows| == 1 then Answer(Some(rows[0]), Matched)
    else if AllSame(rows) then Answer(Some(rows[0]), Matched)
    else Answer(None, AmbiguousSameDate)
  }

  function ResolveMatch<D(==)>(canon: string -> string, index: Index<D>, home: string, away: string,
                               kickoff: int): Answer<D> {
    var ch, ca := canon(home), canon(away);
    if ch == "" || ca == "" || ch == ca then Answer(None, DegenerateNames)
    else
      var pair := if Less(ch, ca) then (ch, ca) else (ca, ch);
      if pair !in index || index[pair] == map[] then Answer(None, NoCounterpart)
      else
        var exact, prev, next := Bucket(index, pair, kickoff), Bucket(index, pair, kickoff - 1),
          Bucket(index, pair, kickoff + 1);
        if exact != [] then UniqueRow(exact)
        else if prev != [] && next != [] then Answer(None, AmbiguousAdjacent)
        else if prev != [] then UniqueRow(prev)
        else if next != [] then UniqueRow(next)
        else Answer(None, NoRowNearby)
  }

  // ----- the direct scan ----------------------------------------------------------------

  // The fixture of two names on a date, read off the rows themselves.
  ghost predicate Played<D>(canon: string -> string, rows: seq<Row<D>>, home: string, away: string, date: int,
                            r: Row<D>) {
    r in rows && r.date == date && Proper(canon(home), canon(away))
    && ((canon(r.winner) == canon(home) && canon(r.loser) == canon(away))
        || (canon(r.winner) == canon(away) && canon(r.loser) == canon(home)))
  }

  ghost predicate NotPlayed<D(!new)>(canon: string -> string, rows: seq<Row<D>>, home: string, away: string,
                                     date: int) {
    forall r :: !Played(canon, rows, home, away, date, r)
  }

  // `r` is the one result of the fixture on that date, however often captured.
  ghost predicate Only<D(!new)>(canon: string -> string, rows: seq<Row<D>>, home: string, away: string, date: int,
                                r: Row<D>) {
    Played(canon, rows, home, away, date, r) && forall q :: Played(canon, rows, home, away, date, q) ==> q == r
  }

  // The kickoff date wins; an adjacent date counts only when it is the only one.
  ghost predicate Scanned<D(!new)>(canon: string -> string, rows: seq<Row<D>>, home: string, away: string,
                                   kickoff: int, r: Row<D>) {
    if !NotPlayed(canon, rows, home, away, kickoff) then Only(canon, rows, home, away, kickoff, r)
    else if NotPlayed(canon, rows, home, away, kickoff + 1) then Only(canon, rows, home, away, kickoff - 1, r)
    else NotPlayed(canon, rows, home, away, kickoff - 1) && Only(canon, rows, home, away, kickoff + 1, r)
  }

  lemma {:induction false} OnContents<D>(canon: string -> string, rows: seq<Row<D>>, p: Pair, date: int, r: Row<D>)
    ensures r in On(canon, rows, p, date) <==> r in rows && IsOn(canon, r, p, date)
  {
    if rows != [] {
      OnContents(canon, rows[..|rows| - 1], p, date, r);
      assert rows == rows[..|rows| - 1] + [rows[|rows| - 1]];
    }
  }

  // A bucket holds exactly the rows of the fixture on the date.
  lemma BucketIsFixture<D(!new)>(canon: string -> string, rows: seq<Row<D>>, index: Index<D>, home: string,
                                 away: string, date: int, r: Row<D>)
    requires Indexes(canon, rows, index) && Proper(canon(home), canon(away))
    ensures r in Bucket(index, PairOf(canon(home), canon(away)), date) <==> Played(canon, rows, home, away, date, r)
  {
    var p := PairOf(canon(home), canon(away));
    OnContents(canon, rows, p, date, r);
    if Proper(canon(r.winner), canon(r.loser)) {
      PairIsUnordered(canon(r.winner), canon(r.loser), canon(home), canon(away));
    }
  }

  lemma UniqueIsOnly<D(!new)>(canon: string -> string, rows: seq<Row<D>>, index: Index<D>, home: string, away: string,
                                  date: int, r: Row<D>)
    requires Indexes(canon, rows, index) && Proper(canon(home), canon(away))
    ensures var b := Bucket(index, PairOf(canon(home), canon(away)), date);
            && (b == [] <==> NotPlayed(canon, rows, home, away, date))
            && (b != [] ==> (UniqueRow(b) == Answer(Some(r), Matched) <==> Only(canon, rows, home, away, date, r)))
  {
    var b := Bucket(index, PairOf(canon(home), canon(away)), date);
    forall q { BucketIsFixture(canon, rows, index, home, away, date, q); }
    if b != [] {
      assert b[0] in b;
      if UniqueRow(b) == Answer(Some(r), Matched) {
        forall q | Played(canon, rows, home, away, date, q) ensures q == r {
          var i :| 0 <= i < |b| && b[i] == q;
        }
      }
      if Only(canon, rows, home, away, date, r) {
        forall i | 0 <= i < |b| ensures b[i] == r { assert b[i] in b; }
      }
    }
  }

  // The index answers as a scan of all rows does: a row is matched exactly when it
  // is the one result under the date discipline.
  lemma IndexIsScan<D(!new)>(canon: string -> string, rows: seq<Row<D>>, index: Index<D>, home: string, away: string,
                                 kickoff: int, r: Row<D>)
    requires Indexes(canon, rows, index)
    ensures ResolveMatch(canon, index, home, away, kickoff) == Answer(Some(r), Matched)
        <==> Scanned(canon, rows, home, away, kickoff, r)
    ensures ResolveMatch(canon, index, home, away, kickoff).row.Some? <==>
              ResolveMatch(canon, index, home, away, kickoff).reason == Matched
  {
    if Proper(canon(home), canon(away)) {
      UniqueIsOnly(canon, rows, index, home, away, kickoff, r);
      UniqueIsOnly(canon, rows, index, home, away, kickoff - 1, r);
      UniqueIsOnly(canon, rows, index, home, away, kickoff + 1, r);
    }
  }

  // What the scan finds.
  ghost function ScanResult<D(!new)>(canon: string -> string, rows: seq<Row<D>>, home: string, away: string,
                                     kickoff: int): Option<Row<D>> {
    if exists r :: Scanned(canon, rows, home, away, kickoff, r) then
      var r :| Scanned(canon, rows, home, away, kickoff, r);
      Some(r)
    else None
  }

  lemma ScanIsUnique<D(!new)>(canon: string -> string, rows: seq<Row<D>>, home: string, away: string, kickoff: int,
                              r: Row<D>)
    requires Scanned(canon, rows, home, away, kickoff, r)
    ensures ScanResult(canon, rows, home, away, kickoff) == Some(r)
  {
  }

  lemma AnswerIsScan<D(!new)>(canon: string -> string, rows: seq<Row<D>>, index: Index<D>, home: string, away: string,
                              kickoff: int)
    requires Indexes(canon, rows, index)
    ensures ResolveMatch(canon, index, home, away, kickoff).row == ScanResult(canon, rows, home, away, kickoff)
  {
    var x := ResolveMatch(canon, index, home, away, kickoff);
    if x.row.Some? { IndexIsScan(canon, rows, index, home, away, kickoff, x.row.value); }
    if r :| Scanned(canon, rows, home, away, kickoff, r) {
      IndexIsScan(canon, rows, index, home, away, kickoff, r);
      var found := ScanResult(canon, rows, home, away, kickoff).value;
      IndexIsScan(canon, rows, index, home, away, kickoff, found);
    }
  }

  // Two buckets with the same rows, in whatever order, give the same answer.
  lemma SameBucketSameAnswer<D(!new)>(a: seq<Row<D>>, b: seq<Row<D>>)
    requires forall r :: r in a <==> r in b
    ensures a == [] <==> b == []
    ensures a != [] ==> UniqueRow(a) == UniqueRow(b)
  {
    if b != [] { assert b[0] in b; }
    if a != [] {
      assert a[0] in a;
      if AllSame(a) { SameElements(a, b); }
      if AllSame(b) { SameElements(b, a); }
    }
  }

  lemma SameElements<D(!new)>(a: seq<Row<D>>, b: seq<Row<D>>)
    requires a != [] && b != [] && AllSame(a) && forall r :: r in b ==> r in a
    ensures AllSame(b) && b[0] == a[0]
  {
    forall i | 0 <= i < |b| ensures b[i] == a[0] {
      assert b[i] in a;
      var j :| 0 <= j < |a| && a[j] == b[i];
    }
  }

  lemma BucketMoves<D(!new)>(canon: string -> string, a: seq<Row<D>>, b: seq<Row<D>>, ia: Index<D>, ib: Index<D>,
                             p: Pair, date: int, r: Row<D>)
    requires (forall q :: q in a <==> q in b) && Indexes(canon, a, ia) && Indexes(canon, b, ib)
    ensures r in Bucket(ia, p, date) <==> r in Bucket(ib, p, date)
  {
    OnContents(canon, a, p, date, r);
    OnContents(canon, b, p, date, r);
  }

  lemma PairMoves<D(!new)>(canon: string -> string, a: seq<Row<D>>, b: seq<Row<D>>, ia: Index<D>, ib: Index<D>, p: Pair)
    requires (forall q :: q in a <==> q in b) && Indexes(canon, a, ia) && Indexes(canon, b, ib)
    ensures p in ia && ia[p] != map[] ==> p in ib && ib[p] != map[]
  {
    if p in ia {
      var date :| date in ia[p] && ia[p][date] != [];
      var r := ia[p][date][0];
      assert r in Bucket(ia, p, date);
      BucketMoves(canon, a, b, ia, ib, p, date, r);
      assert date in ib[p];
    }
  }

  // The order of the rows does not matter, neither for the row nor for the reason.
  lemma PermutationInvariant<D(!new)>(canon: string -> string, a: seq<Row<D>>, b: seq<Row<D>>, ia: Index<D>,
                                      ib: Index<D>, home: string, away: string, kickoff: int)
    requires multiset(a) == multiset(b) && Indexes(canon, a, ia) && Indexes(canon, b, ib)
    ensures ResolveMatch(canon, ia, home, away, kickoff) == ResolveMatch(canon, ib, home, away, kickoff)
  {
    forall r: Row<D> ensures r in a <==> r in b {
      assert r in a <==> r in multiset(a);
      assert r in b <==> r in multiset(b);
    }
    var p := PairOf(canon(home), canon(away));
    PairMoves(canon, a, b, ia, ib, p);
    PairMoves(canon, b, a, ib, ia, p);
    forall date | date in {kickoff - 1, kickoff, kickoff + 1}
      ensures Bucket(ia, p, date) == [] <==> Bucket(ib, p, date) == []
      ensures Bucket(ia, p, date) != [] ==> UniqueRow(Bucket(ia, p, date)) == UniqueRow(Bucket(ib, p, date))
    {
      forall r ensures r in Bucket(ia, p, date) <==> r in Bucket(ib, p, date) {
        BucketMoves(canon, a, b, ia, ib, p, date, r);
      }
      SameBucketSameAnswer(Bucket(ia, p, date), Bucket(ib, p, date));
    }
  }

  // ----- orientation --------------------------------------------------------------------

  // Games on the pick's own axis, by name and never by position.
  function Games<D>(canon: string -> string, row: Row<D>, home: string): (Option<int>, Option<int>) {
    if canon(row.winner) == canon(home) then (row.winnerGames, row.loserGames) else (row.loserGames, row.winnerGames)
  }

  // Swapping home and away finds the same row, for the same reason, with the
  // games the other way round.
  lemma SwapSwapsGames<D(!new)>(canon: string -> string, rows: seq<Row<D>>, index: Index<D>, home: string, away: string,
                                    kickoff: int)
    requires Indexes(canon, rows, index)
    ensures var x, y := ResolveMatch(canon, index, home, away, kickoff),
            ResolveMatch(canon, index, away, home, kickoff);
            x == y
            && (x.row.Some? && canon(x.row.value.winner) == canon(home) ==>
                  Games(canon, x.row.value, home) == (x.row.value.winnerGames, x.row.value.loserGames)
                  && Games(canon, x.row.value, away) == (x.row.value.loserGames, x.row.value.winnerGames))
            && (x.row.Some? && canon(x.row.value.winner) != canon(home) ==>
                  Games(canon, x.row.value, home) == (x.row.value.loserGames, x.row.value.winnerGames)
                  && Games(canon, x.row.value, away) == (x.row.value.winnerGames, x.row.value.loserGames))
            && (x.row.Some? ==>
                  Games(canon, x.row.value, away)
                    == (Games(canon, x.row.value, home).1, Games(canon, x.row.value, home).0))
  {
    var x := ResolveMatch(canon, index, home, away, kickoff);
    LessIsTotal(canon(home), canon(away));
    if x.row.Some? {
      IndexIsScan(canon, rows, index, home, away, kickoff, x.row.value);
    }
  }
}
