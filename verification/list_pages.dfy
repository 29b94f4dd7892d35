/** What the five list screens (users, restaurants, delivery persons,
    complaints, reviews) share: the "all" option of a filter select, loading
    a page object into the table, the pager under the table, and the badge
    colour tables looked up by a lower-cased key. */
module ListPages {
  import opened Common
  import opened Entities

  // ---------------------------------------------------------------------------
  // Filter selects

  /** `filter !== 'all' ? filter : null`. */
  function FilterArg(selected: string): (r: Option<string>)
    ensures r.None? <==> selected == "all"
    ensures r.Some? ==> r.value == selected
  {
    if selected != "all" then Some(selected) else None
  }

  /** The client appends a filter only when its argument is truthy, so the
      "all" option and an empty value both leave the filter out. */
  lemma FilterArgTruthy(selected: string)
    ensures Truthy(FilterArg(selected)) <==> selected != "all" && selected != ""
  {
  }

  // ---------------------------------------------------------------------------
  // Loading a page

  /** The rows on screen and the page count the pager uses. */
  datatype Listing<T> = Listing(items: seq<T>, totalPages: int)

  /** What a list call resolved with: the client's `response.data.data`,
      which may be missing, or the rejection. */
  type PageOutcome<T> = Result<Option<PageData<T>>, HttpError>

  /** The `try` body of a page's fetch: `content || []` and
      `totalPages || 0`. A rejection, or a missing page object (reading its
      `content` throws), is caught and leaves the table as it was. */
  function Load<T>(l: Listing<T>, outcome: PageOutcome<T>): (r: Listing<T>)
    ensures outcome.Err? || outcome.value.None? ==> r == l
    ensures outcome.Ok? && outcome.value.Some? ==>
              && (outcome.value.value.content.Some? ==> r.items == outcome.value.value.content.value)
              && (outcome.value.value.content.None? ==> r.items == [])
              && (outcome.value.value.totalPages.Some? ==> r.totalPages == outcome.value.value.totalPages.value)
              && (outcome.value.value.totalPages.None? ==> r.totalPages == 0)
  {
    match outcome
    case Ok(Some(data)) => Listing(data.content.GetOr([]), NumOrZero(data.totalPages))
    case _ => l
  }

  /** The table shows the last page that loaded: loading the same answer
      again changes nothing, and a delivered page replaces whatever was
      shown before. */
  lemma LoadSettles<T>(l: Listing<T>, m: Listing<T>, outcome: PageOutcome<T>)
    ensures Load(Load(l, outcome), outcome) == Load(l, outcome)
    ensures outcome.Ok? && outcome.value.Some? ==> Load(l, outcome) == Load(m, outcome)
  {
  }

  // ---------------------------------------------------------------------------
  // Combined filters

  /** Filtering by one condition and then another keeps what filtering once
      by `both` keeps. */
  lemma {:induction false} FilterTwice<T(!new)>(xs: seq<T>, p: T -> bool, q: T -> bool, both: T -> bool)
    requires forall i :: 0 <= i < |xs| ==> (both(xs[i]) <==> p(xs[i]) && q(xs[i]))
    ensures Filter(Filter(xs, p), q) == Filter(xs, both)
  {
    if xs != [] {
      assert forall i :: 0 <= i < |xs[1..]| ==> xs[1..][i] == xs[i + 1];
      FilterTwice(xs[1..], p, q, both);
    }
  }

  /** Two conditions that agree on every element filter alike. */
  lemma {:induction false} FilterSame<T(!new)>(xs: seq<T>, p: T -> bool, q: T -> bool)
    requires forall i :: 0 <= i < |xs| ==> (p(xs[i]) <==> q(xs[i]))
    ensures Filter(xs, p) == Filter(xs, q)
  {
    if xs != [] {
      assert forall i :: 0 <= i < |xs[1..]| ==> xs[1..][i] == xs[i + 1];
      FilterSame(xs[1..], p, q);
    }
  }

  // ---------------------------------------------------------------------------
  // Summary counts

  /** Two counts over the same rows with conditions no row meets together
      add up to the count of rows meeting `either` of them. */
  lemma {:induction false} CountUnion<T(!new)>(xs: seq<T>, p: T -> bool, q: T -> bool, either: T -> bool)
    requires forall i :: 0 <= i < |xs| ==> !(p(xs[i]) && q(xs[i]))
    requires forall i :: 0 <= i < |xs| ==> (either(xs[i]) <==> p(xs[i]) || q(xs[i]))
    ensures Count(xs, p) + Count(xs, q) == Count(xs, either)
  {
    if xs != [] {
      assert forall i :: 0 <= i < |xs[1..]| ==> xs[1..][i] == xs[i + 1];
      CountUnion(xs[1..], p, q, either);
    }
  }

  /** A condition every row meets counts every row. */
  lemma CountAll<T(!new)>(xs: seq<T>, p: T -> bool)
    requires forall i :: 0 <= i < |xs| ==> p(xs[i])
    ensures Count(xs, p) == |xs|
  {
    FilterAll(xs, p);
  }

  // ---------------------------------------------------------------------------
  // The pager

  /** The pager is rendered only for more than one page. */
  predicate ShowsPager(totalPages: int) {
    totalPages > 1
  }

  /** "Previous" is disabled only on the first page. */
  predicate PrevEnabled(current: nat) {
    current != 0
  }

  /** "Next" is disabled only when the current page is exactly the last one. */
  predicate NextEnabled(current: nat, totalPages: int) {
    current != totalPages - 1
  }

  /** The numbered buttons: one per page, from 0. */
  function PageButtons(totalPages: int): (r: seq<nat>)
    ensures ShowsPager(totalPages) ==> |r| == totalPages && forall i :: 0 <= i < |r| ==> r[i] == i
    ensures !ShowsPager(totalPages) ==> r == []
  {
    if !ShowsPager(totalPages) then []
    else
      seq(totalPages, i requires 0 <= i < totalPages => i)
  }

  datatype PagerClick = PrevClick | NextClick | NumberClick(index: nat)

  /** The page after a click. A button that is not rendered or is disabled
      does nothing. */
  function Click(current: nat, totalPages: int, click: PagerClick): (r: nat)
    ensures !ShowsPager(totalPages) ==> r == current
    ensures click == PrevClick && ShowsPager(totalPages) ==> r == (if current != 0 then current - 1 else current)
    ensures click == NextClick && ShowsPager(totalPages) ==> r == (if current != totalPages - 1 then current + 1 else current)
    ensures click.NumberClick? && ShowsPager(totalPages) ==> r == (if click.index < totalPages then click.index else current)
  {
    if !ShowsPager(totalPages) then current
    else
      match click
      case PrevClick => if PrevEnabled(current) then current - 1 else current
      case NextClick => if NextEnabled(current, totalPages) then current + 1 else current
      case NumberClick(i) => if i < |PageButtons(totalPages)| then PageButtons(totalPages)[i] else current
  }

  /** From a page inside the range, every click stays inside it. */
  lemma ClicksStayInRange(current: nat, totalPages: int, click: PagerClick)
    requires current < totalPages
    ensures Click(current, totalPages, click) < totalPages
  {
  }

  /** A filter change keeps the page index, so the index can lie past the
      new last page. Then "Next" stays enabled and leads further out, and
      when the new result has a single page the pager is not shown at all. */
  lemma StrandedPage(current: nat, totalPages: int)
    requires totalPages <= current
    ensures NextEnabled(current, totalPages) && Click(current, totalPages, NextClick) != current ==>
              Click(current, totalPages, NextClick) > current
    ensures ShowsPager(totalPages) ==> Click(current, totalPages, NextClick) == current + 1
    ensures totalPages <= 1 ==> forall click :: Click(current, totalPages, click) == current
  {
  }

  /** A row that fails the condition keeps the count below the length. */
  lemma {:induction false} CountMisses<T(!new)>(xs: seq<T>, p: T -> bool, i: nat)
    requires i < |xs| && !p(xs[i])
    ensures Count(xs, p) < |xs|
  {
    if i > 0 {
      assert xs[1..][i - 1] == xs[i];
      CountMisses(xs[1..], p, i - 1);
    }
  }

  /** Comparing two lists position by position: when every position that
      counts in `xs` counts in `ys`, `ys` counts at least as many, and one
      more position counting only in `ys` makes it strictly more. */
  lemma {:induction false} CountPointwise<T(!new)>(xs: seq<T>, ys: seq<T>, p: T -> bool, q: T -> bool)
    requires |xs| == |ys|
    requires forall i :: 0 <= i < |xs| ==> (p(xs[i]) ==> q(ys[i]))
    ensures Count(xs, p) <= Count(ys, q)
    ensures (exists i :: 0 <= i < |xs| && !p(xs[i]) && q(ys[i])) ==> Count(xs, p) < Count(ys, q)
  {
    if xs != [] {
      assert forall i :: 0 <= i < |xs[1..]| ==> xs[1..][i] == xs[i + 1] && ys[1..][i] == ys[i + 1];
      CountPointwise(xs[1..], ys[1..], p, q);
      if exists i :: 0 <= i < |xs| && !p(xs[i]) && q(ys[i]) {
        var i :| 0 <= i < |xs| && !p(xs[i]) && q(ys[i]);
        if i > 0 {
          assert !p(xs[1..][i - 1]) && q(ys[1..][i - 1]);
        }
      }
    }
  }

  // ---------------------------------------------------------------------------
  // Labels

  /** `value?.replace('_', ' ')`, used for roles and complaint statuses: a
      string pattern replaces only its first occurrence. */
  function SpacedLabel(value: Option<string>): (r: Option<string>)
    ensures r.Some? <==> value.Some?
  {
    match value
    case None => None
    case Some(text) =>
      var (before, after) := SplitFirst(text, '_');
      if after.Some? then Some(before + " " + after.value) else Some(text)
  }

  /** A value with an underscore shows it as a space once; later
      underscores stay. A value without one shows unchanged. */
  lemma SpacedLabelFirstOnly(before: string, after: string)
    requires '_' !in before
    ensures SpacedLabel(Some(before + "_" + after)) == Some(before + " " + after)
    ensures SpacedLabel(Some(before)) == Some(before)
  {
    assert before + "_" + after == before + ['_'] + after;
    SplitFirstAt(before, '_', after);
    SplitFirstAbsent(before, '_');
  }

  // ---------------------------------------------------------------------------
  // Badge colour tables

  /** An object literal from status (or role) to a colour name. */
  type BadgeTable = seq<(string, string)>

  /** `badges[key]`: the entry for `key`, if any. */
  function Lookup(table: BadgeTable, key: string): (r: Option<string>)
    ensures r.Some? ==> exists i :: 0 <= i < |table| && table[i] == (key, r.value)
    ensures r.None? ==> forall i :: 0 <= i < |table| ==> table[i].0 != key
  {
    if table == [] then None
    else if table[0].0 == key then Some(table[0].1)
    else
      var r := Lookup(table[1..], key);
      assert forall i :: 1 <= i < |table| ==> table[i] == table[1..][i - 1];
      r
  }

  /** No key is listed twice. */
  predicate DistinctKeys(table: BadgeTable) {
    forall i, j :: 0 <= i < j < |table| ==> table[i].0 != table[j].0
  }

  /** With distinct keys, a listed key finds its own colour. */
  lemma {:induction false} LookupListed(table: BadgeTable, i: nat)
    requires DistinctKeys(table) && i < |table|
    ensures Lookup(table, table[i].0) == Some(table[i].1)
  {
    if i > 0 {
      assert table[0].0 != table[i].0;
      assert table[1..][i - 1] == table[i];
      LookupListed(table[1..], i - 1);
    }
  }

  /** `badges[key?.toLowerCase()] || 'secondary'`. */
  function BadgeClass(table: BadgeTable, key: Option<string>): (r: string)
    ensures r == "secondary" || exists i :: 0 <= i < |table| && table[i].1 == r
  {
    if key.None? then "secondary"
    else
      match Lookup(table, Lower(key.value))
      case Some(c) => if c != "" then c else "secondary"
      case None => "secondary"
  }

  /** The lookup ignores letter case, and with distinct, lower-case keys a
      listed key in any case finds its colour while an unlisted one falls
      back to "secondary". */
  lemma BadgeClassByKey(table: BadgeTable, key: string, i: nat)
    requires DistinctKeys(table) && i < |table| && table[i].1 != ""
    requires Lower(key) == table[i].0
    ensures BadgeClass(table, Some(key)) == table[i].1
  {
    LookupListed(table, i);
  }

  lemma BadgeClassUnlisted(table: BadgeTable, key: Option<string>)
    requires key.Some? ==> forall i :: 0 <= i < |table| ==> table[i].0 != Lower(key.value)
    ensures BadgeClass(table, key) == "secondary"
  {
  }

  /** Two keys equal up to case get the same colour. */
  lemma BadgeIgnoresCase(table: BadgeTable, a: string, b: string)
    requires Lower(a) == Lower(b)
    ensures BadgeClass(table, Some(a)) == BadgeClass(table, Some(b))
  {
  }

  /** `window.confirm` answered by the admin; a declined delete sends nothing. */
  function ConfirmedRequests(confirmed: bool, request: Request): (r: seq<Request>)
    ensures confirmed <==> r == [request]
    ensures !confirmed <==> r == []
  {
    if confirmed then [request] else []
  }
}
