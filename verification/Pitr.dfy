/** The point-in-time window read off a backup listing: the smallest start and the
    largest stop over every backup of every stanza, missing parts skipped. */
module Pitr {
  import opened Text

  datatype Backup = Backup(start: Option<int>, stop: Option<int>)

  /** A stanza without a readable backup list is skipped. */
  type Listing = seq<Option<seq<Backup>>>

  /** `b` is backup `j` of stanza `i`. */
  predicate At(listing: Listing, i: nat, j: nat, b: Backup) {
    i < |listing| && listing[i].Some? && j < |listing[i].value| && listing[i].value[j] == b
  }

  /** Backup `j` of stanza `i` was reached before backup `y` of stanza `x`. */
  predicate Reached(i: nat, j: nat, x: nat, y: nat) {
    i < x || (i == x && j < y)
  }

  /** Over the backups reached so far: a bound on each side, met by one of them. */
  ghost predicate Spans(listing: Listing, x: nat, y: nat, earliest: Option<int>, latest: Option<int>) {
    && (forall i, j, b | At(listing, i, j, b) && Reached(i, j, x, y) ::
          && (b.start.Some? ==> earliest.Some? && earliest.value <= b.start.value)
          && (b.stop.Some? ==> latest.Some? && b.stop.value <= latest.value))
    && (earliest.Some? ==> exists i, j, b :: At(listing, i, j, b) && b.start == earliest)
    && (latest.Some? ==> exists i, j, b :: At(listing, i, j, b) && b.stop == latest)
  }

  lemma OneMore(listing: Listing, x: nat, y: nat, b: Backup, earliest: Option<int>, latest: Option<int>)
    requires Spans(listing, x, y, earliest, latest) && At(listing, x, y, b)
    ensures Spans(listing, x, y + 1, Lower(earliest, b.start), Upper(latest, b.stop))
  {
    var lower, upper := Lower(earliest, b.start), Upper(latest, b.stop);
    assert lower.Some? && lower != earliest ==> At(listing, x, y, b) && b.start == lower;
    assert upper.Some? && upper != latest ==> At(listing, x, y, b) && b.stop == upper;
  }

  function Lower(a: Option<int>, b: Option<int>): Option<int> {
    if b.None? then a else if a.None? || b.value < a.value then b else a
  }

  function Upper(a: Option<int>, b: Option<int>): Option<int> {
    if b.None? then a else if a.None? || a.value < b.value then b else a
  }

  /** Main result: a window end is there exactly when some backup has it, and it is then
      the extreme one. */
  method PitrWindow(listing: Listing) returns (earliest: Option<int>, latest: Option<int>)
    ensures forall i, j, b | At(listing, i, j, b) ::
      && (b.start.Some? ==> earliest.Some? && earliest.value <= b.start.value)
      && (b.stop.Some? ==> latest.Some? && b.stop.value <= latest.value)
    ensures earliest.Some? ==> exists i, j, b :: At(listing, i, j, b) && b.start == earliest
    ensures latest.Some? ==> exists i, j, b :: At(listing, i, j, b) && b.stop == latest
  {
    earliest, latest := None, None;
    for x := 0 to |listing|
      invariant Spans(listing, x, 0, earliest, latest)
    {
      if listing[x].Some? {
        var backups := listing[x].value;
        for y := 0 to |backups|
          invariant Spans(listing, x, y, earliest, latest)
        {
          var b := backups[y];
          OneMore(listing, x, y, b, earliest, latest);
          if b.start.Some? {
            earliest := Some(if earliest.None? || b.start.value < earliest.value then b.start.value else earliest.value);
          }
          if b.stop.Some? {
            latest := Some(if latest.None? || latest.value < b.stop.value then b.stop.value else latest.value);
          }
        }
      }
    }
  }
}
