/** `GET /api/admin/stats`: the admin dashboard's figures. Only an admin session gets them; they
    are counts over the stored collections, the ten most frequent symptom words, and the number of
    diagnoses on each of the last seven days. */
module AdminStats {
  import opened Common
  import opened Types

  const TopCount: nat := 10
  const TrendDays: nat := 7
  const ThirtyDaysMs: int := 30 * DayMs

  datatype Diagnosis = Diagnosis(symptoms: Option<string>, createdAt: Option<Timestamp>)

  /** The session as the handler sees it. */
  datatype Session = Session(userId: Option<string>, role: Option<Role>)

  /** The collections the handler reads; recommendations only matter by their number. */
  datatype Database = Database(
    users: seq<User>,
    diagnoses: seq<Diagnosis>,
    verifications: seq<VerificationRecord>,
    sosEvents: seq<SosEvent>,
    recommendationCount: nat)

  datatype SymptomCount = SymptomCount(symptom: string, count: nat)

  /** One day of the trend: its midnight and the diagnoses created that day. */
  datatype DayCount = DayCount(day: Timestamp, count: nat)

  datatype Stats = Stats(
    totalUsers: nat, adminUsers: nat, regularUsers: int, recentSignups: nat,
    totalDiagnoses: nat, diagnosesLast30Days: nat,
    commonSymptoms: seq<SymptomCount>, trends: seq<DayCount>,
    totalVerifications: nat, verifiedDrugs: nat, expiredDrugs: nat, unverifiedDrugs: nat,
    totalSos: nat, activeSos: nat, resolvedSos: nat,
    totalRecommendations: nat)

  datatype StatsResponse = Unauthorized | Failed | Figures(stats: Stats)

  /** `!session?.user?.id || session.user.role !== 'admin'` fails the gate. */
  predicate IsAdminSession(session: Session) {
    Truthy(session.userId) && session.role == Some(AdminRole)
  }

  // ---------------------------------------------------------------------------
  // Words
  // ---------------------------------------------------------------------------

  /** The length of the run of non-whitespace characters `s` starts with. */
  function RunLength(s: string): (n: nat)
    requires |s| > 0 && !IsWhitespace(s[0])
    ensures 1 <= n <= |s|
    ensures forall k :: 0 <= k < n ==> !IsWhitespace(s[k])
    ensures n == |s| || IsWhitespace(s[n])
  {
    if |s| == 1 || IsWhitespace(s[1]) then 1 else 1 + RunLength(s[1..])
  }

  /** The non-empty pieces of `s.split(/\s+/)`: the maximal runs of non-whitespace. */
  function Words(s: string): (r: seq<string>)
    ensures forall k :: 0 <= k < |r| ==> r[k] != "" && forall c :: 0 <= c < |r[k]| ==> !IsWhitespace(r[k][c])
    decreases |s|
  {
    if |s| == 0 then []
    else if IsWhitespace(s[0]) then Words(s[1..])
    else
      var n := RunLength(s);
      [s[..n]] + Words(s[n..])
  }

  /** `s.split(/\s+/)` before its empty pieces are dropped, taken as a split at every single
      whitespace character: the pieces of both, once the empty ones are dropped, are the same. */
  function SplitWs(s: string): (parts: seq<string>)
    ensures |parts| >= 1
  {
    if |s| == 0 then [""]
    else
      var rest := SplitWs(s[1..]);
      if IsWhitespace(s[0]) then [""] + rest else [[s[0]] + rest[0]] + rest[1..]
  }

  /** The pieces that are not empty, in order. */
  function NonEmpty(parts: seq<string>): seq<string> {
    if |parts| == 0 then []
    else (if parts[0] == "" then [] else [parts[0]]) + NonEmpty(parts[1..])
  }

  /** A prefix free of whitespace is glued to the first piece of the rest. */
  lemma {:induction false} SplitWsPrefix(s: string, k: nat)
    requires k <= |s| && forall i :: 0 <= i < k ==> !IsWhitespace(s[i])
    ensures SplitWs(s) == [s[..k] + SplitWs(s[k..])[0]] + SplitWs(s[k..])[1..]
  {
    if k == 0 {
      var t := SplitWs(s);
      assert s[k..] == s && s[..k] == "";
      assert "" + t[0] == t[0];
      assert [t[0]] + t[1..] == t;
    } else {
      var t := SplitWs(s[1..]);
      var u := SplitWs(s[k..]);
      SplitWsPrefix(s[1..], k - 1);
      assert s[1..][k - 1..] == s[k..];
      assert t[0] == s[1..][..k - 1] + u[0] && t[1..] == u[1..];
      assert [s[0]] + s[1..][..k - 1] == s[..k];
      assert [s[0]] + t[0] == s[..k] + u[0];
    }
  }

  /** The words are the non-empty pieces of the split, in order. */
  lemma {:induction false} WordsAreTheNonEmptyPieces(s: string)
    ensures Words(s) == NonEmpty(SplitWs(s))
    decreases |s|
  {
    if |s| == 0 {
    } else if IsWhitespace(s[0]) {
      WordsAreTheNonEmptyPieces(s[1..]);
      assert ([""] + SplitWs(s[1..]))[1..] == SplitWs(s[1..]);
    } else {
      var n := RunLength(s);
      var rest := SplitWs(s[n..]);
      WordsAreTheNonEmptyPieces(s[n..]);
      SplitWsPrefix(s, n);
      assert rest[0] == "" by {
        if |s[n..]| > 0 {
          assert IsWhitespace(s[n..][0]);
        }
      }
      assert s[..n] + rest[0] == s[..n];
      var parts := [s[..n]] + rest[1..];
      assert parts[1..] == rest[1..];
      assert NonEmpty(rest) == NonEmpty(rest[1..]);
    }
  }

  /** `.filter(w => w.length > 3)`: the long words, each as often as it occurs, in order. */
  function LongWords(words: seq<string>): (r: seq<string>)
    ensures |r| <= |words|
    ensures forall k :: 0 <= k < |r| ==> |r[k]| > 3
  {
    if |words| == 0 then []
    else (if |words[0]| > 3 then [words[0]] else []) + LongWords(words[1..])
  }

  /** The filter keeps every long word as often as it occurs, and no other word. */
  lemma {:induction false} LongWordsCounts(words: seq<string>, w: string)
    ensures multiset(LongWords(words))[w] == if |w| > 3 then multiset(words)[w] else 0
    ensures w in LongWords(words) <==> |w| > 3 && w in words
  {
    if |words| > 0 {
      LongWordsCounts(words[1..], w);
      assert words == [words[0]] + words[1..];
      if |words[0]| > 3 {
        assert LongWords(words) == [words[0]] + LongWords(words[1..]);
      } else {
        assert LongWords(words) == LongWords(words[1..]);
      }
    }
  }

  /** The filter keeps the order: filtering a concatenation concatenates the filtered parts. */
  lemma {:induction false} LongWordsAppend(a: seq<string>, b: seq<string>)
    ensures LongWords(a + b) == LongWords(a) + LongWords(b)
  {
    if |a| > 0 {
      var head := if |a[0]| > 3 then [a[0]] else [];
      LongWordsAppend(a[1..], b);
      assert (a + b)[0] == a[0] && (a + b)[1..] == a[1..] + b;
      assert LongWords(a + b) == head + LongWords(a[1..] + b);
      assert LongWords(a) == head + LongWords(a[1..]);
    } else {
      assert a + b == b;
    }
  }

  /** The counted words of one diagnosis: its symptoms lower-cased, split on whitespace, longer
      than three characters. */
  function SymptomWords(d: Diagnosis): seq<string> {
    LongWords(Words(ToLower(OrElse(d.symptoms, ""))))
  }

  /** Every counted word, diagnosis after diagnosis. */
  function AllWords(ds: seq<Diagnosis>): seq<string> {
    if |ds| == 0 then [] else AllWords(ds[..|ds| - 1]) + SymptomWords(ds[|ds| - 1])
  }

  // ---------------------------------------------------------------------------
  // Counting
  // ---------------------------------------------------------------------------

  /** `symptomCounts[word] = (symptomCounts[word] || 0) + 1`, word after word. */
  function Tally(words: seq<string>): map<string, nat> {
    if |words| == 0 then map[]
    else
      var m := Tally(words[..|words| - 1]);
      var w := words[|words| - 1];
      m[w := (if w in m then m[w] else 0) + 1]
  }

  /** The keys of the tally in the order they were first added. */
  function Distinct(words: seq<string>): seq<string> {
    if |words| == 0 then []
    else
      var prefix := words[..|words| - 1];
      var w := words[|words| - 1];
      if w in prefix then Distinct(prefix) else Distinct(prefix) + [w]
  }

  /** The tally counts each word's occurrences, and has exactly the words that occur. */
  lemma {:induction false} TallyCounts(words: seq<string>)
    ensures forall w :: w in Tally(words) <==> w in words
    ensures forall w :: w in Tally(words) ==> Tally(words)[w] == multiset(words)[w]
  {
    if |words| > 0 {
      var prefix := words[..|words| - 1];
      TallyCounts(prefix);
      assert words == prefix + [words[|words| - 1]];
    }
  }

  /** The keys are the words that occur, each once. */
  lemma {:induction false} DistinctWords(words: seq<string>)
    ensures forall w :: w in Distinct(words) <==> w in words
    ensures forall i, j :: 0 <= i < j < |Distinct(words)| ==> Distinct(words)[i] != Distinct(words)[j]
  {
    if |words| > 0 {
      var prefix := words[..|words| - 1];
      DistinctWords(prefix);
      assert words == prefix + [words[|words| - 1]];
    }
  }

  /** `Object.entries(symptomCounts)`: every distinct word with its number of occurrences. */
  function Entries(words: seq<string>): (r: seq<SymptomCount>)
    ensures |r| == |Distinct(words)|
    ensures forall k :: 0 <= k < |r| ==> r[k].symptom == Distinct(words)[k] && r[k].count == multiset(words)[r[k].symptom]
  {
    var d := Distinct(words);
    seq(|d|, i requires 0 <= i < |d| => SymptomCount(d[i], multiset(words)[d[i]]))
  }

  /** One more word: its count goes up by one, and it becomes the last key if it is new. */
  lemma TallyStep(before: seq<string>, w: string)
    ensures Tally(before + [w]) == Tally(before)[w := (if w in Tally(before) then Tally(before)[w] else 0) + 1]
    ensures Distinct(before + [w]) == if w in Tally(before) then Distinct(before) else Distinct(before) + [w]
  {
    TallyCounts(before);
    assert (before + [w])[..|before|] == before;
  }

  lemma AppendOneMore(seen: seq<string>, words: seq<string>, j: nat)
    requires j < |words|
    ensures seen + words[..j + 1] == (seen + words[..j]) + [words[j]]
  {
    assert words[..j + 1] == words[..j] + [words[j]];
  }

  /** The inner `words.forEach`: each word's count goes up by one, and a new word becomes the
      last key. */
  method AddWords(counts: map<string, nat>, order: seq<string>, ghost seen: seq<string>, words: seq<string>)
    returns (counts': map<string, nat>, order': seq<string>)
    requires counts == Tally(seen) && order == Distinct(seen)
    ensures counts' == Tally(seen + words) && order' == Distinct(seen + words)
  {
    counts', order' := counts, order;
    assert seen + words[..0] == seen;
    for j := 0 to |words|
      invariant counts' == Tally(seen + words[..j]) && order' == Distinct(seen + words[..j])
    {
      var w := words[j];
      AppendOneMore(seen, words, j);
      TallyStep(seen + words[..j], w);
      if w !in counts' {
        order' := order' + [w];
      }
      counts' := counts'[w := (if w in counts' then counts'[w] else 0) + 1];
    }
    assert words[..|words|] == words;
  }

  lemma AllWordsStep(ds: seq<Diagnosis>, i: nat)
    requires i < |ds|
    ensures AllWords(ds[..i + 1]) == AllWords(ds[..i]) + SymptomWords(ds[i])
  {
    assert ds[..i + 1][..i] == ds[..i];
  }

  /** Every key of the tally, in key order, with its count. */
  lemma KeysTallied(words: seq<string>)
    ensures forall k :: 0 <= k < |Distinct(words)| ==>
      Distinct(words)[k] in Tally(words) && Tally(words)[Distinct(words)[k]] == multiset(words)[Distinct(words)[k]]
  {
    TallyCounts(words);
    DistinctWords(words);
  }

  /** The symptom tally as the handler builds it: one pass over the diagnoses, one over each
      diagnosis's words. */
  method CountSymptoms(ds: seq<Diagnosis>) returns (entries: seq<SymptomCount>)
    ensures entries == Entries(AllWords(ds))
  {
    var counts: map<string, nat> := map[];
    var order: seq<string> := [];
    for i := 0 to |ds|
      invariant counts == Tally(AllWords(ds[..i])) && order == Distinct(AllWords(ds[..i]))
    {
      AllWordsStep(ds, i);
      counts, order := AddWords(counts, order, AllWords(ds[..i]), SymptomWords(ds[i]));
    }
    assert ds[..|ds|] == ds;
    KeysTallied(AllWords(ds));
    entries := seq(|order|, k requires 0 <= k < |order| => SymptomCount(order[k], counts[order[k]]));
  }

  // ---------------------------------------------------------------------------
  // Ranking
  // ---------------------------------------------------------------------------

  predicate SortedByCount(s: seq<SymptomCount>) {
    forall i, j :: 0 <= i < j < |s| ==> s[i].count >= s[j].count
  }

  /** Insert after every entry with at least the same count, so equal counts keep their order. */
  function InsertByCount(x: SymptomCount, s: seq<SymptomCount>): (r: seq<SymptomCount>)
    ensures multiset(r) == multiset(s) + multiset{x}
  {
    if |s| == 0 then [x]
    else if s[0].count >= x.count then
      assert s == [s[0]] + s[1..];
      [s[0]] + InsertByCount(x, s[1..])
    else [x] + s
  }

  lemma {:induction false} InsertKeepsSorted(x: SymptomCount, s: seq<SymptomCount>)
    requires SortedByCount(s)
    ensures SortedByCount(InsertByCount(x, s))
  {
    if |s| > 0 && s[0].count >= x.count {
      var rest := InsertByCount(x, s[1..]);
      InsertKeepsSorted(x, s[1..]);
      forall k | 0 <= k < |rest| ensures s[0].count >= rest[k].count {
        assert rest[k] in multiset(s[1..]) + multiset{x};
        if rest[k] != x {
          assert rest[k] in s[1..];
        }
      }
    }
  }

  /** `.sort(([, a], [, b]) => b - a)`: a stable sort by decreasing count. */
  function SortByCount(s: seq<SymptomCount>): (r: seq<SymptomCount>)
    ensures multiset(r) == multiset(s)
    ensures SortedByCount(r)
  {
    if |s| == 0 then []
    else
      assert s == s[..|s| - 1] + [s[|s| - 1]];
      InsertKeepsSorted(s[|s| - 1], SortByCount(s[..|s| - 1]));
      InsertByCount(s[|s| - 1], SortByCount(s[..|s| - 1]))
  }

  /** `.slice(0, 10)` of the sorted entries. */
  function TopSymptoms(words: seq<string>): seq<SymptomCount> {
    var sorted := SortByCount(Entries(words));
    if |sorted| <= TopCount then sorted else sorted[..TopCount]
  }

  /** The top list: at most ten distinct words, by decreasing count, each with its true count;
      and no word left out occurs more often than any word listed. */
  lemma TopSymptomsCorrect(words: seq<string>)
    ensures var top := TopSymptoms(words);
            |top| == if |Distinct(words)| < TopCount then |Distinct(words)| else TopCount
    ensures SortedByCount(TopSymptoms(words))
    ensures forall k :: 0 <= k < |TopSymptoms(words)| ==>
      TopSymptoms(words)[k].symptom in words
      && TopSymptoms(words)[k].count == multiset(words)[TopSymptoms(words)[k].symptom]
    ensures forall w, k :: w in words && 0 <= k < |TopSymptoms(words)| && w !in SymptomsOf(TopSymptoms(words)) ==>
      TopSymptoms(words)[k].count >= multiset(words)[w]
  {
    var sorted := SortByCount(Entries(words));
    var top := TopSymptoms(words);
    SortedEntries(words);
    assert forall j :: 0 <= j < |top| ==> top[j] == sorted[j];
    forall k | 0 <= k < |top|
      ensures top[k].symptom in words && top[k].count == multiset(words)[top[k].symptom]
    {
      EntryIsTrue(words, top[k]);
    }
    forall w, k | w in words && 0 <= k < |top| && w !in SymptomsOf(top)
      ensures top[k].count >= multiset(words)[w]
    {
      WordHasEntry(words, w);
      var q :| 0 <= q < |sorted| && sorted[q] == SymptomCount(w, multiset(words)[w]);
      assert q >= |top|;
    }
  }

  /** Sorting the entries keeps exactly the entries. */
  lemma SortedEntries(words: seq<string>)
    ensures |SortByCount(Entries(words))| == |Distinct(words)|
    ensures forall k :: 0 <= k < |SortByCount(Entries(words))| ==> SortByCount(Entries(words))[k] in Entries(words)
    ensures forall e :: e in Entries(words) ==> e in SortByCount(Entries(words))
  {
    var entries := Entries(words);
    var sorted := SortByCount(entries);
    assert |sorted| == |entries| by {
      assert |multiset(sorted)| == |multiset(entries)|;
    }
    forall k | 0 <= k < |sorted| ensures sorted[k] in entries {
      assert sorted[k] in multiset(entries);
    }
    forall e | e in entries ensures e in sorted {
      assert e in multiset(sorted);
    }
  }

  /** Every entry is a word that occurs, with its number of occurrences. */
  lemma EntryIsTrue(words: seq<string>, e: SymptomCount)
    requires e in Entries(words)
    ensures e.symptom in words && e.count == multiset(words)[e.symptom]
  {
    DistinctWords(words);
    var p :| 0 <= p < |Entries(words)| && Entries(words)[p] == e;
  }

  /** Every word that occurs has its entry. */
  lemma WordHasEntry(words: seq<string>, w: string)
    requires w in words
    ensures SymptomCount(w, multiset(words)[w]) in Entries(words)
  {
    DistinctWords(words);
    var p :| 0 <= p < |Distinct(words)| && Distinct(words)[p] == w;
    assert Entries(words)[p] == SymptomCount(w, multiset(words)[w]);
  }

  /** The words the top list names, and no others. */
  function SymptomsOf(top: seq<SymptomCount>): (r: set<string>)
    ensures forall k :: 0 <= k < |top| ==> top[k].symptom in r
    ensures forall w :: w in r ==> exists k :: 0 <= k < |top| && top[k].symptom == w
  {
    set k | 0 <= k < |top| :: top[k].symptom
  }

  // ---------------------------------------------------------------------------
  // Trends
  // ---------------------------------------------------------------------------

  predicate CreatedWithin(d: Diagnosis, from: Timestamp, until: Timestamp) {
    d.createdAt.Some? && from <= d.createdAt.value < until
  }

  /** `countDocuments({ createdAt: { $gte: from, $lt: until } })` */
  function CountCreated(ds: seq<Diagnosis>, from: Timestamp, until: Timestamp): nat {
    CountWhere(ds, (d: Diagnosis) => CreatedWithin(d, from, until))
  }

  /** Midnight of the `k`-th trend day: six days ago for `k == 0`, today for `k == 6`. */
  function TrendDay(now: Timestamp, k: int): Timestamp {
    DateOf(now) - (TrendDays - 1 - k) * DayMs
  }

  /** The trend loop: seven days, oldest first, each with the diagnoses created on it. */
  method Trends(ds: seq<Diagnosis>, now: Timestamp) returns (trends: seq<DayCount>)
    ensures |trends| == TrendDays
    ensures forall k :: 0 <= k < TrendDays ==>
      trends[k].day == TrendDay(now, k) && trends[k].count == CountCreated(ds, TrendDay(now, k), TrendDay(now, k) + DayMs)
    ensures forall k :: 0 <= k < TrendDays - 1 ==> trends[k].day + DayMs == trends[k + 1].day
    ensures trends[TrendDays - 1].day == DateOf(now)
  {
    trends := [];
    for i := TrendDays downto 0
      invariant |trends| == TrendDays - i
      invariant forall k :: 0 <= k < |trends| ==>
        trends[k].day == TrendDay(now, k) && trends[k].count == CountCreated(ds, TrendDay(now, k), TrendDay(now, k) + DayMs)
    {
      var date := DateOf(now) - i * DayMs;
      var nextDate := date + DayMs;
      trends := trends + [DayCount(date, CountCreated(ds, date, nextDate))];
    }
  }

  function SumCounts(trends: seq<DayCount>): nat {
    if |trends| == 0 then 0 else SumCounts(trends[..|trends| - 1]) + trends[|trends| - 1].count
  }

  /** The days split the window they span: together they count exactly the diagnoses created in
      it, none twice. */
  lemma {:induction false} DaysSplitTheWindow(ds: seq<Diagnosis>, from: Timestamp, n: nat)
    ensures SumCounts(seq(n, k requires 0 <= k < n => DayCount(from + k * DayMs, CountCreated(ds, from + k * DayMs, from + k * DayMs + DayMs))))
            == CountCreated(ds, from, from + n * DayMs)
  {
    var days := seq(n, k requires 0 <= k < n => DayCount(from + k * DayMs, CountCreated(ds, from + k * DayMs, from + k * DayMs + DayMs)));
    if n == 0 {
      CountWhereSame(ds, (d: Diagnosis) => CreatedWithin(d, from, from), (d: Diagnosis) => false);
      CountNone(ds);
    } else {
      var m := n - 1;
      var earlier := seq(m, k requires 0 <= k < m => DayCount(from + k * DayMs, CountCreated(ds, from + k * DayMs, from + k * DayMs + DayMs)));
      assert days[..m] == earlier;
      DaysSplitTheWindow(ds, from, m);
      var mid := from + m * DayMs;
      assert mid + DayMs == from + n * DayMs;
      CountWhereDisjointUnion(ds,
        (d: Diagnosis) => CreatedWithin(d, from, mid),
        (d: Diagnosis) => CreatedWithin(d, mid, mid + DayMs),
        (d: Diagnosis) => CreatedWithin(d, from, from + n * DayMs));
    }
  }

  /** A window that ends where it starts, or before, counts nothing. */
  lemma EmptyWindowCountsNothing(ds: seq<Diagnosis>, from: Timestamp, until: Timestamp)
    requires until <= from
    ensures CountCreated(ds, from, until) == 0
  {
    CountWhereSame(ds, (d: Diagnosis) => CreatedWithin(d, from, until), (d: Diagnosis) => false);
    CountNone(ds);
  }

  lemma {:induction false} CountNone(ds: seq<Diagnosis>)
    ensures CountWhere(ds, (d: Diagnosis) => false) == 0
  {
    if |ds| > 0 {
      CountNone(ds[..|ds| - 1]);
    }
  }

  /** The seven trend counts add up to the diagnoses created from six days ago until the end of
      today. */
  lemma TrendsCoverTheWeek(ds: seq<Diagnosis>, now: Timestamp, trends: seq<DayCount>)
    requires |trends| == TrendDays
    requires forall k :: 0 <= k < TrendDays ==>
      trends[k].day == TrendDay(now, k) && trends[k].count == CountCreated(ds, TrendDay(now, k), TrendDay(now, k) + DayMs)
    ensures SumCounts(trends) == CountCreated(ds, TrendDay(now, 0), DateOf(now) + DayMs)
  {
    var from := TrendDay(now, 0);
    DaysSplitTheWindow(ds, from, TrendDays);
    assert trends == seq(TrendDays, k requires 0 <= k < TrendDays =>
      DayCount(from + k * DayMs, CountCreated(ds, from + k * DayMs, from + k * DayMs + DayMs)));
  }

  // ---------------------------------------------------------------------------
  // The handler
  // ---------------------------------------------------------------------------

  /** `regularUsers = totalUsers - adminUsers` counts exactly the users who are not admins. */
  lemma RegularUsersAreNonAdmins(users: seq<User>)
    ensures |users| - AdminCount(users) == CountWhere(users, (u: User) => u.role != AdminRole)
    ensures |users| - AdminCount(users) >= 0
  {
    CountWhereComplement(users, (u: User) => u.role == AdminRole);
    CountWhereSame(users, (u: User) => !((u: User) => u.role == AdminRole)(u), (u: User) => u.role != AdminRole);
  }

  function CountVerdict(records: seq<VerificationRecord>, v: Verdict): nat {
    CountWhere(records, (r: VerificationRecord) => r.result == v)
  }

  function CountSos(events: seq<SosEvent>, s: SosStatus): nat {
    CountWhere(events, (e: SosEvent) => e.status == s)
  }

  predicate CreatedSince(u: User, since: Timestamp) {
    u.createdAt.Some? && u.createdAt.value >= since
  }

  /** `GET`. `dbFails` stands for a database call that throws. */
  method GetStats(session: Session, db: Database, now: Timestamp, dbFails: bool) returns (resp: StatsResponse)
    ensures !IsAdminSession(session) ==> resp == Unauthorized
    ensures IsAdminSession(session) && dbFails ==> resp == Failed
    ensures resp.Figures? <==> IsAdminSession(session) && !dbFails
    ensures resp.Figures? ==>
      var s := resp.stats;
      && s.totalUsers == |db.users| && s.adminUsers == AdminCount(db.users)
      && s.regularUsers == CountWhere(db.users, (u: User) => u.role != AdminRole)
      && s.recentSignups == CountWhere(db.users, (u: User) => CreatedSince(u, now - ThirtyDaysMs))
      && s.totalDiagnoses == |db.diagnoses|
      && s.diagnosesLast30Days == CountWhere(db.diagnoses, (d: Diagnosis) => d.createdAt.Some? && d.createdAt.value >= now - ThirtyDaysMs)
      && s.commonSymptoms == TopSymptoms(AllWords(db.diagnoses))
      && |s.trends| == TrendDays && s.trends[TrendDays - 1].day == DateOf(now)
      && (forall k :: 0 <= k < TrendDays ==>
            s.trends[k].day == TrendDay(now, k)
            && s.trends[k].count == CountCreated(db.diagnoses, TrendDay(now, k), TrendDay(now, k) + DayMs))
      && SumCounts(s.trends) == CountCreated(db.diagnoses, TrendDay(now, 0), DateOf(now) + DayMs)
      && s.totalVerifications == |db.verifications|
      && s.verifiedDrugs == CountVerdict(db.verifications, Verified)
      && s.expiredDrugs == CountVerdict(db.verifications, Expired)
      && s.unverifiedDrugs == CountVerdict(db.verifications, Unverified)
      && s.totalSos == |db.sosEvents| && s.activeSos == CountSos(db.sosEvents, Active)
      && s.resolvedSos == CountSos(db.sosEvents, Resolved)
      && s.totalRecommendations == db.recommendationCount
  {
    if !IsAdminSession(session) {
      return Unauthorized;
    }
    if dbFails {
      return Failed;
    }
    var totalUsers := |db.users|;
    var adminUsers := AdminCount(db.users);
    RegularUsersAreNonAdmins(db.users);
    var regularUsers := totalUsers - adminUsers;
    var thirtyDaysAgo := now - ThirtyDaysMs;
    var recentSignups := CountWhere(db.users, (u: User) => CreatedSince(u, thirtyDaysAgo));
    var diagnosesLast30Days := CountWhere(db.diagnoses, (d: Diagnosis) => d.createdAt.Some? && d.createdAt.value >= thirtyDaysAgo);

    var entries := CountSymptoms(db.diagnoses);
    var sorted := SortByCount(entries);
    var commonSymptoms := if |sorted| <= TopCount then sorted else sorted[..TopCount];

    var trends := Trends(db.diagnoses, now);
    TrendsCoverTheWeek(db.diagnoses, now, trends);

    resp := Figures(Stats(
      totalUsers, adminUsers, regularUsers, recentSignups,
      |db.diagnoses|, diagnosesLast30Days, commonSymptoms, trends,
      |db.verifications|, CountVerdict(db.verifications, Verified), CountVerdict(db.verifications, Expired),
      CountVerdict(db.verifications, Unverified),
      |db.sosEvents|, CountSos(db.sosEvents, Active), CountSos(db.sosEvents, Resolved),
      db.recommendationCount));
  }
}
