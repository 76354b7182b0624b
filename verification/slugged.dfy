/**
 * The `Slugged` mixin of ross/core/models.py: on save, a record whose slug is
 * empty gets one derived from its source field, cut to the slug field's
 * maximum length and made unique among the other records of its class by
 * appending `separator + counter` for counter = 2, 3, ...
 *
 * The persistence layer is abstract: the stored records of the class are a
 * map from primary key to stored slug, `slugify` is a parameter, and the
 * underlying save is counted in the field `writes`.
 */
module SluggedModel {
  import opened SlugText

  datatype Option<T> = None | Some(value: T)

  /** The two IntegrityError cases that `save` raises. */
  datatype SaveError =
    | MissingSourceField(fieldName: string)  // 'The source field %s doesn't exist!'
    | NoUniqueSlug                           // 'Unable to locate unique slug'

  datatype Result<T> = Ok(value: T) | Err(error: SaveError)

  datatype SaveOutcome = Saved | Raised(error: SaveError)

  /**
   * The per-class configuration that `save` looks up by attribute name.
   * maxIterations is the attribute `slug_max_iterations`; maxLength is the
   * slug field's `max_length`, None when the field declares none.
   */
  datatype Config = Config(
    valueFieldName: string,
    maxIterations: int,
    separator: string,
    maxLength: Option<nat>)

  /** The defaults used when the class sets none of the attributes. */
  const DefaultConfig := Config("title", 1000, "-", Some(200))

  /** Python truthiness of an optional string: present and non-empty. */
  predicate Truthy(s: Option<string>)
  {
    s.Some? && s.value != ""
  }

  /** Python truthiness of a primary key: present and non-zero. */
  predicate PkSet(pk: Option<int>)
  {
    pk.Some? && pk.value != 0
  }

  /** `if slug_len:` — a maximum length is in force (None and 0 are falsy). */
  predicate Limited(maxLength: Option<nat>)
  {
    maxLength.Some? && maxLength.value > 0
  }

  /**
   * The slugs the uniqueness query can see: every stored slug of the class,
   * except the row of the record being saved when its primary key is set.
   */
  function Siblings(table: map<int, Option<string>>, pk: Option<int>): (r: set<string>)
    ensures forall x :: x in r <==>
              exists p :: p in table && table[p] == Some(x) && !(PkSet(pk) && p == pk.value)
  {
    set p | p in table && table[p].Some? && !(PkSet(pk) && p == pk.value) :: table[p].value
  }

  /** A record that already has a primary key never collides with its own stored row. */
  lemma OwnRowNeverCollides(table: map<int, Option<string>>, pk: Option<int>, stored: Option<string>)
    requires PkSet(pk)
    ensures Siblings(table[pk.value := stored], pk) == Siblings(table, pk)
  {
    var t := table[pk.value := stored];
    forall x | x in Siblings(t, pk) ensures x in Siblings(table, pk) {
      var p :| p in t && t[p].Some? && !(PkSet(pk) && p == pk.value) && t[p].value == x;
      assert table[p] == t[p];
    }
    forall x | x in Siblings(table, pk) ensures x in Siblings(t, pk) {
      var p :| p in table && table[p].Some? && !(PkSet(pk) && p == pk.value) && table[p].value == x;
      assert t[p] == table[p];
    }
  }

  /** A record without a primary key sees every stored slug, and nothing else. */
  lemma NewRecordSeesAllRows(table: map<int, Option<string>>, pk: Option<int>, x: string)
    requires !PkSet(pk)
    ensures x in Siblings(table, pk) <==> exists p :: p in table && table[p] == Some(x)
  {
  }

  /**
   * The base candidate: the slugified source value, cut to its first
   * maxLength characters when a maximum length is in force.
   */
  function BaseCandidate(slugified: string, maxLength: Option<nat>): (base: string)
    ensures base <= slugified
    ensures Limited(maxLength) ==> |base| <= maxLength.value
    ensures Limited(maxLength) && |slugified| > maxLength.value ==> |base| == maxLength.value
    ensures !Limited(maxLength) || |slugified| <= maxLength.value ==> base == slugified
  {
    if Limited(maxLength) then PrefixTo(slugified, maxLength.value) else slugified
  }

  /**
   * `'%s%s' % (slug_separator, counter)`: the separator, then digits that
   * read back as the counter.
   */
  function Suffix(separator: string, counter: nat): (s: string)
  {
    separator + Decimal(counter)
  }

  /** A suffix starts with the separator, and what follows reads back as the counter. */
  lemma SuffixReadsBack(separator: string, counter: nat)
    ensures separator < Suffix(separator, counter)
    ensures AllDigits(Suffix(separator, counter)[|separator|..])
    ensures ParseDecimal(Suffix(separator, counter)[|separator|..]) == counter
  {
    DecimalRoundTrip(counter);
    assert Suffix(separator, counter)[|separator|..] == Decimal(counter);
  }

  /**
   * The candidate built for a counter: the base, shortened (with Python's
   * slice, so a negative stop counts from the end) when base plus suffix
   * would exceed the maximum length, followed by the whole suffix.
   */
  function Candidate(base: string, separator: string, maxLength: Option<nat>, counter: nat): (c: string)
    ensures |Suffix(separator, counter)| <= |c|
    ensures c[|c| - |Suffix(separator, counter)|..] == Suffix(separator, counter)
    ensures c[..|c| - |Suffix(separator, counter)|] <= base
    ensures !Limited(maxLength) || |base| + |Suffix(separator, counter)| <= maxLength.value ==>
              c == base + Suffix(separator, counter)
    ensures Limited(maxLength) && |Suffix(separator, counter)| <= maxLength.value ==>
              |c| <= maxLength.value
    ensures Limited(maxLength) && |Suffix(separator, counter)| <= maxLength.value < |base| + |Suffix(separator, counter)| ==>
              |c| == maxLength.value
    ensures Limited(maxLength) && maxLength.value < |Suffix(separator, counter)| ==>
              |c| == if |base| + maxLength.value >= |Suffix(separator, counter)|
                     then |base| + maxLength.value
                     else |Suffix(separator, counter)|
  {
    var suffix := Suffix(separator, counter);
    var prefix :=
      if Limited(maxLength) && |base| + |suffix| > maxLength.value
      then PrefixTo(base, maxLength.value - |suffix|)
      else base;
    assert (prefix + suffix)[..|prefix|] == prefix;
    prefix + suffix
  }

  /** The k-th slug probed: the base for k = 1, the candidate for counter k after it. */
  function Probe(base: string, separator: string, maxLength: Option<nat>, k: nat): (slug: string)
    requires 1 <= k
  {
    if k == 1 then base else Candidate(base, separator, maxLength, k)
  }

  /**
   * The first probe is the base; every later one is a prefix of the base
   * followed by the whole suffix for its counter, and fits the maximum
   * length when the base and that suffix do.
   */
  lemma ProbeShape(base: string, separator: string, maxLength: Option<nat>, k: nat)
    requires 1 <= k
    ensures k == 1 ==> Probe(base, separator, maxLength, k) == base
    ensures 2 <= k ==>
              var slug := Probe(base, separator, maxLength, k);
              |Suffix(separator, k)| <= |slug| &&
              slug[|slug| - |Suffix(separator, k)|..] == Suffix(separator, k) &&
              slug[..|slug| - |Suffix(separator, k)|] <= base
    ensures Limited(maxLength) && |base| <= maxLength.value &&
            (2 <= k ==> |Suffix(separator, k)| <= maxLength.value) ==>
              |Probe(base, separator, maxLength, k)| <= maxLength.value
  {
  }

  /**
   * The counter with which the collision loop stops when it is entered with
   * counter c, the slug in hand being Probe(c - 1). The loop keeps going while
   * that slug is taken and the counter is below the limit, so the result is
   * the least counter from c on whose slug is free or that has reached the
   * limit; it never moves past the limit.
   */
  function Stop(siblings: set<string>, base: string, separator: string, maxLength: Option<nat>,
                limit: int, c: nat): (r: nat)
    requires 2 <= c
    ensures c <= r
    ensures r == c || r <= limit
    ensures forall k :: c - 1 <= k < r - 1 ==> Probe(base, separator, maxLength, k) in siblings
    ensures r < limit ==> Probe(base, separator, maxLength, r - 1) !in siblings
    decreases limit - c
  {
    if Probe(base, separator, maxLength, c - 1) in siblings && c < limit
    then Stop(siblings, base, separator, maxLength, limit, c + 1)
    else c
  }

  /**
   * What the collision loop and the exhaustion test decide for a base
   * candidate: IntegrityError when the counter ends equal to the limit,
   * otherwise the last slug probed.
   */
  function Resolution(siblings: set<string>, base: string, separator: string, maxLength: Option<nat>,
                      limit: int): (r: Result<string>)
    ensures r.Err? ==> r.error == NoUniqueSlug
    ensures limit < 2 ==> r == Ok(base)
    ensures 2 <= limit && r.Ok? ==> r.value !in siblings
    ensures r.Err? <==>
              limit == 2 ||
              (limit > 2 && forall k :: 1 <= k <= limit - 2 ==> Probe(base, separator, maxLength, k) in siblings)
  {
    var c := Stop(siblings, base, separator, maxLength, limit, 2);
    if c == limit then Err(NoUniqueSlug) else Ok(Probe(base, separator, maxLength, c - 1))
  }

  /**
   * Probe order: when the limit is at least 2 and a slug is assigned, it is
   * the first free slug in the order base, counter 2, 3, ..., and it comes
   * no later than counter limit - 2 (the candidate for limit - 1 is built
   * but never accepted).
   */
  lemma AssignedIsFirstFree(siblings: set<string>, base: string, separator: string,
                            maxLength: Option<nat>, limit: int)
    requires 2 <= limit
    requires Resolution(siblings, base, separator, maxLength, limit).Ok?
    ensures exists j :: 1 <= j <= limit - 2 &&
              Resolution(siblings, base, separator, maxLength, limit).value == Probe(base, separator, maxLength, j) &&
              (forall i :: 1 <= i < j ==> Probe(base, separator, maxLength, i) in siblings)
  {
  }

  /** Conversely, the first free slug among the first limit - 2 probes is the one assigned. */
  lemma FirstFreeIsAssigned(siblings: set<string>, base: string, separator: string,
                            maxLength: Option<nat>, limit: int, j: nat)
    requires 1 <= j <= limit - 2
    requires Probe(base, separator, maxLength, j) !in siblings
    requires forall i :: 1 <= i < j ==> Probe(base, separator, maxLength, i) in siblings
    ensures Resolution(siblings, base, separator, maxLength, limit) == Ok(Probe(base, separator, maxLength, j))
  {
  }

  /**
   * The assigned slug fits the maximum length whenever the base does and
   * the longest suffix the loop could build fits.
   */
  lemma AssignedFitsMaxLength(siblings: set<string>, base: string, separator: string,
                              maxLength: nat, limit: int)
    requires 0 < maxLength
    requires |base| <= maxLength
    requires 2 <= limit ==> |Suffix(separator, limit)| <= maxLength
    requires Resolution(siblings, base, separator, Some(maxLength), limit).Ok?
    ensures |Resolution(siblings, base, separator, Some(maxLength), limit).value| <= maxLength
  {
    var c := Stop(siblings, base, separator, Some(maxLength), limit, 2);
    if c - 1 >= 2 {
      DecimalLengthMonotone(c - 1, limit);
    }
  }

  /**
   * The collision loop of `save`: probes the base, then the candidates for
   * counter 2, 3, ... while the slug in hand is taken and the counter is
   * below the limit. Each evaluation of the loop condition issues one query
   * (the query comes first in the condition, so it is issued even when the
   * counter test then fails).
   */
  method ResolveSlug(siblings: set<string>, base: string, separator: string, maxLength: Option<nat>,
                     limit: int) returns (slug: string, counter: nat, queries: nat)
    ensures counter == Stop(siblings, base, separator, maxLength, limit, 2)
    ensures slug == Probe(base, separator, maxLength, counter - 1)
    ensures queries == counter - 1
    ensures counter <= if limit > 2 then limit else 2
    ensures queries <= if limit > 2 then limit - 1 else 1
  {
    slug, counter := base, 2;
    var taken := slug in siblings;
    queries := 1;
    while taken && counter < limit
      invariant 2 <= counter
      invariant slug == Probe(base, separator, maxLength, counter - 1)
      invariant taken == (slug in siblings)
      invariant queries == counter - 1
      invariant Stop(siblings, base, separator, maxLength, limit, counter)
             == Stop(siblings, base, separator, maxLength, limit, 2)
      decreases limit - counter
    {
      assert Stop(siblings, base, separator, maxLength, limit, counter)
          == Stop(siblings, base, separator, maxLength, limit, counter + 1);
      slug := Candidate(base, separator, maxLength, counter);
      assert slug == Probe(base, separator, maxLength, counter);
      counter := counter + 1;
      taken := slug in siblings;
      queries := queries + 1;
    }
  }

  /** A record of a class that mixes in Slugged, as far as `save` touches it. */
  class Slugged {
    var pk: Option<int>          // the primary key, None before the first write
    var source: Option<string>   // the value of the configured source attribute, None when absent
    var slug: Option<string>     // the slug field (nullable)
    var writes: nat              // how many times the record went to the underlying save

    constructor (pk: Option<int>, source: Option<string>, slug: Option<string>)
      ensures this.pk == pk && this.source == source && this.slug == slug && writes == 0
    {
      this.pk, this.source, this.slug := pk, source, slug;
      writes := 0;
    }

    /**
     * `save`: leaves a set slug alone; otherwise raises when the source
     * value is missing or empty, runs the collision loop on the base
     * candidate, raises when the counter ends at the limit, and stores the
     * slug. The underlying save happens only when nothing was raised.
     */
    method Save(config: Config, slugify: string -> string, table: map<int, Option<string>>)
      returns (outcome: SaveOutcome)
      modifies this
      ensures pk == old(pk) && source == old(source)
      ensures Truthy(old(slug)) ==>
                outcome == Saved && slug == old(slug) && writes == old(writes) + 1
      ensures !Truthy(old(slug)) && !Truthy(source) ==>
                outcome == Raised(MissingSourceField(config.valueFieldName)) &&
                slug == old(slug) && writes == old(writes)
      ensures !Truthy(old(slug)) && Truthy(source) ==>
                var r := Resolution(Siblings(table, pk),
                                    BaseCandidate(slugify(source.value), config.maxLength),
                                    config.separator, config.maxLength, config.maxIterations);
                if r.Ok? then
                  outcome == Saved && slug == Some(r.value) && writes == old(writes) + 1
                else
                  outcome == Raised(r.error) && slug == old(slug) && writes == old(writes)
    {
      if !Truthy(slug) {
        var siblings := Siblings(table, pk);
        if !Truthy(source) {
          return Raised(MissingSourceField(config.valueFieldName));
        }
        var base := BaseCandidate(slugify(source.value), config.maxLength);
        var found, counter, _ := ResolveSlug(siblings, base, config.separator, config.maxLength,
                                             config.maxIterations);
        if counter == config.maxIterations {
          return Raised(NoUniqueSlug);
        }
        slug := Some(found);
      }
      writes := writes + 1;
      outcome := Saved;
    }
  }

  /**
   * With the default configuration, saving records whose source slugifies
   * to "foo" one after the other yields "foo", then "foo-2", then "foo-3".
   */
  lemma SequentialSaves()
    ensures Resolution({}, "foo", "-", Some(200), 1000) == Ok("foo")
    ensures Resolution({"foo"}, "foo", "-", Some(200), 1000) == Ok("foo-2")
    ensures Resolution({"foo", "foo-2"}, "foo", "-", Some(200), 1000) == Ok("foo-3")
  {
    assert Decimal(2) == "2" && Decimal(3) == "3";
    assert Probe("foo", "-", Some(200), 2) == "foo-2";
    assert Probe("foo", "-", Some(200), 3) == "foo-3";
    FirstFreeIsAssigned({}, "foo", "-", Some(200), 1000, 1);
    FirstFreeIsAssigned({"foo"}, "foo", "-", Some(200), 1000, 2);
    FirstFreeIsAssigned({"foo", "foo-2"}, "foo", "-", Some(200), 1000, 3);
  }

  /**
   * Three new records with the same source value, saved one after another
   * through `Save` with the default configuration, each stored slug joining
   * the table before the next save: they get "foo", "foo-2" and "foo-3".
   */
  method SaveThreeInSequence() returns (first: Option<string>, second: Option<string>, third: Option<string>)
    ensures first == Some("foo") && second == Some("foo-2") && third == Some("foo-3")
  {
    var slugify := (value: string) => value;
    assert BaseCandidate(slugify("foo"), DefaultConfig.maxLength) == "foo";
    SequentialSaves();
    StoredSlugsAreSiblings();

    var a := new Slugged(None, Some("foo"), None);
    var outcome := a.Save(DefaultConfig, slugify, map[]);
    first := a.slug;

    var b := new Slugged(None, Some("foo"), None);
    outcome := b.Save(DefaultConfig, slugify, map[1 := first]);
    second := b.slug;

    var c := new Slugged(None, Some("foo"), None);
    outcome := c.Save(DefaultConfig, slugify, map[1 := first, 2 := second]);
    third := c.slug;
  }

  /** The sibling slugs a new record sees in the tables of SaveThreeInSequence. */
  lemma StoredSlugsAreSiblings()
    ensures Siblings(map[], None) == {}
    ensures Siblings(map[1 := Some("foo")], None) == {"foo"}
    ensures Siblings(map[1 := Some("foo"), 2 := Some("foo-2")], None) == {"foo", "foo-2"}
  {
    var t1: map<int, Option<string>> := map[1 := Some("foo")];
    var t2: map<int, Option<string>> := map[1 := Some("foo"), 2 := Some("foo-2")];
    assert t1[1] == Some("foo");
    assert t2[1] == Some("foo") && t2[2] == Some("foo-2");
  }

  /**
   * With a maximum length of 5, the base "abcdefgh" is cut to "abcde" and the
   * candidate for counter 2 shortens it to "abc" so that "abc-2" fills the
   * five characters exactly.
   */
  lemma TruncatedCandidates()
    ensures BaseCandidate("abcdefgh", Some(5)) == "abcde"
    ensures Candidate("abcde", "-", Some(5), 2) == "abc-2"
  {
  }
}
