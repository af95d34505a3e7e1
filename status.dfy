/** The channel status page (`src/pages/Status.jsx`): the WhatsApp channels
    table, sorted by a column the user clicks, with the status shown
    capitalised and the quality rating as a word and a coloured dot. */
module ChannelStatus {
  import opened Wrappers
  import opened Text
  import opened StableSorting

  // ---------------------------------------------------------------- channels

  /** The columns of a channel the table shows and sorts by; any of them
      may be missing from the server's answer. */
  datatype Channel = Channel(
    accountName: Option<string>,
    displayPhoneNumber: Option<string>,
    verifiedName: Option<string>,
    status: Option<string>,
    qualityRating: Option<string>)

  /** The sortable columns: `account_name`, `display_phone_number`,
      `verified_name`, `status` and `quality_rating`. */
  datatype SortKey = AccountName | DisplayPhoneNumber | VerifiedName | StatusColumn | QualityRating

  datatype Direction = Asc | Desc

  /** `sortConfig`: no column at first, ascending. */
  datatype SortConfig = SortConfig(key: Option<SortKey>, direction: Direction)

  const InitialSort := SortConfig(None, Asc)

  // ---------------------------------------------------------------- status and quality

  /** `getStatusText`: "Indefinido" for a missing or empty status, otherwise
      the first letter upper case and the rest lower case. */
  function StatusText(status: Option<string>): (r: string)
    ensures r != []
    ensures Truthy(status) ==> |r| == |status.value| && r[0] == UpperChar(status.value[0])
  {
    if !Truthy(status) then "Indefinido"
    else [UpperChar(status.value[0])] + Lower(status.value[1..])
  }

  lemma {:induction false} LowerIdempotent(s: string)
    ensures Lower(Lower(s)) == Lower(s)
  {
    if s != [] {
      LowerIdempotent(s[1..]);
      assert Lower(s)[1..] == Lower(s[1..]);
    }
  }

  /** Showing a status that is already shown leaves it as it is. */
  lemma StatusTextIdempotent(status: Option<string>)
    requires Truthy(status)
    ensures StatusText(Some(StatusText(status))) == StatusText(status)
  {
    var t := StatusText(status);
    var s := status.value;
    LowerIdempotent(s[1..]);
    assert t[0] == UpperChar(s[0]) && t[1..] == Lower(s[1..]);
  }

  lemma {:induction false} LowerSame(a: string, b: string)
    requires Lower(a) == Lower(b)
    ensures |a| == |b| && forall i :: 0 <= i < |a| ==> UpperChar(a[i]) == UpperChar(b[i])
    ensures a != [] ==> Lower(a[1..]) == Lower(b[1..])
  {
    if a != [] {
      assert Lower(a)[0] == LowerChar(a[0]) && Lower(b)[0] == LowerChar(b[0]);
      assert Lower(a)[1..] == Lower(a[1..]) && Lower(b)[1..] == Lower(b[1..]);
      LowerSame(a[1..], b[1..]);
      forall i | 0 <= i < |a|
        ensures UpperChar(a[i]) == UpperChar(b[i])
      {
        if i > 0 {
          assert a[i] == a[1..][i - 1] && b[i] == b[1..][i - 1];
        }
      }
    }
  }

  /** The shown status depends on the letters only, not on their case. */
  lemma StatusTextIgnoresCase(a: string, b: string)
    requires Lower(a) == Lower(b)
    ensures StatusText(Some(a)) == StatusText(Some(b))
  {
    LowerSame(a, b);
  }

  /** `rating?.toLowerCase()`. */
  function RatingKey(rating: Option<string>): Option<string>
  {
    if rating.None? then None else Some(Lower(rating.value))
  }

  /** `getStatusBadgeClass`: the badge's style for connected, flagged and
      any other status, in any case. */
  function BadgeClass(status: Option<string>): string
  {
    var k := RatingKey(status);
    if k == Some("connected") then "status-connected"
    else if k == Some("flagged") then "status-flagged"
    else "status-undefined"
  }

  /** The badge, like the shown status, does not depend on case. */
  lemma BadgeIgnoresCase(a: string, b: string)
    requires Lower(a) == Lower(b)
    ensures BadgeClass(Some(a)) == BadgeClass(Some(b))
    ensures StatusText(Some(a)) == StatusText(Some(b))
  {
    StatusTextIgnoresCase(a, b);
  }

  /** `getQualityText`: green is High, red is Low, anything else Medium. */
  function QualityText(rating: Option<string>): (r: string)
    ensures r in {"High", "Medium", "Low"}
    ensures r == "Medium" <==> RatingKey(rating) != Some("green") && RatingKey(rating) != Some("red")
  {
    var k := RatingKey(rating);
    if k == Some("green") then "High"
    else if k == Some("red") then "Low"
    else "Medium"
  }

  const Green := "#28a745"
  const Yellow := "#ffc107"
  const Red := "#dc3545"

  /** `getQualityColor`: yellow and orange, and anything unknown, are
      yellow. */
  function QualityColor(rating: Option<string>): (r: string)
    ensures r in {Green, Yellow, Red}
    ensures r == Green <==> RatingKey(rating) == Some("green")
    ensures r == Red <==> RatingKey(rating) == Some("red")
  {
    var k := RatingKey(rating);
    if k == Some("green") then Green
    else if k == Some("yellow") || k == Some("orange") then Yellow
    else if k == Some("red") then Red
    else Yellow
  }

  /** The colour of a quality word. */
  function ColorOf(text: string): string
  {
    if text == "High" then Green else if text == "Low" then Red else Yellow
  }

  /** The dot and the word agree: the dot's colour is the colour of the
      word shown beside it, and the three colours are distinct. */
  lemma QualityColorMatchesText(rating: Option<string>)
    ensures QualityColor(rating) == ColorOf(QualityText(rating))
    ensures QualityText(rating) in {"High", "Medium", "Low"}
    ensures Green != Yellow && Yellow != Red && Green != Red
  {
  }

  // ---------------------------------------------------------------- the comparator

  /** The value a column is compared by: missing as empty, status and
      quality rating in lower case. */
  function SortValue(c: Channel, key: SortKey): string
  {
    match key
    case AccountName => OrEmpty(c.accountName)
    case DisplayPhoneNumber => OrEmpty(c.displayPhoneNumber)
    case VerifiedName => OrEmpty(c.verifiedName)
    case StatusColumn => Lower(OrEmpty(c.status))
    case QualityRating => Lower(OrEmpty(c.qualityRating))
  }

  /** The comparator handed to `sort`: negative when `a` goes first. */
  function Compare(a: Channel, b: Channel, key: SortKey, dir: Direction): int
  {
    var av, bv := SortValue(a, key), SortValue(b, key);
    if Less(av, bv) then (if dir == Asc then -1 else 1)
    else if Less(bv, av) then (if dir == Asc then 1 else -1)
    else 0
  }

  /** The comparator is consistent, as `sort` needs: it ties exactly the
      channels with the same value, swapping the arguments flips its sign,
      and "not after" is transitive. */
  lemma CompareConsistent(a: Channel, b: Channel, c: Channel, key: SortKey, dir: Direction)
    ensures Compare(a, b, key, dir) == 0 <==> SortValue(a, key) == SortValue(b, key)
    ensures Compare(a, b, key, dir) == -Compare(b, a, key, dir)
    ensures Compare(a, b, key, dir) <= 0 && Compare(b, c, key, dir) <= 0 ==> Compare(a, c, key, dir) <= 0
  {
    var av, bv, cv := SortValue(a, key), SortValue(b, key), SortValue(c, key);
    LessTotal(av, bv);
    LessAsymmetric(av, bv);
    LessIrreflexive(av);
    if Compare(a, b, key, dir) <= 0 && Compare(b, c, key, dir) <= 0 {
      NotAfterTransitive(a, b, c, key, dir);
    }
  }

  lemma NotAfterTransitive(a: Channel, b: Channel, c: Channel, key: SortKey, dir: Direction)
    requires Compare(a, b, key, dir) <= 0 && Compare(b, c, key, dir) <= 0
    ensures Compare(a, c, key, dir) <= 0
  {
    var av, bv, cv := SortValue(a, key), SortValue(b, key), SortValue(c, key);
    LessTotal(av, bv);
    LessTotal(bv, cv);
    LessTotal(av, cv);
    LessAsymmetric(av, cv);
    if dir == Asc {
      if Less(cv, av) {
        if Less(av, bv) { LessTransitive(cv, av, bv); }
        LessAsymmetric(bv, cv);
      }
    } else {
      if Less(av, cv) {
        if Less(bv, av) { LessTransitive(bv, av, cv); }
        LessAsymmetric(cv, bv);
      }
    }
  }

  lemma Flip(a: Channel, b: Channel, key: SortKey, dir: Direction)
    ensures Compare(a, b, key, dir) == -Compare(b, a, key, dir)
    ensures Compare(a, b, key, dir) < 0 ==> SortValue(a, key) != SortValue(b, key)
  {
    LessAsymmetric(SortValue(a, key), SortValue(b, key));
    LessIrreflexive(SortValue(a, key));
  }

  /** The comparator for a column and a direction. */
  function Comparator(key: SortKey, dir: Direction): (Channel, Channel) -> int
  {
    (a: Channel, b: Channel) => Compare(a, b, key, dir)
  }

  lemma ComparatorConsistent(key: SortKey, dir: Direction)
    ensures Consistent(Comparator(key, dir))
  {
    var cmp := Comparator(key, dir);
    forall a, b
      ensures cmp(a, b) == -cmp(b, a)
    {
      Flip(a, b, key, dir);
    }
    forall a, b, c | cmp(a, b) <= 0 && cmp(b, c) <= 0
      ensures cmp(a, c) <= 0
    {
      NotAfterTransitive(a, b, c, key, dir);
    }
  }

  // ---------------------------------------------------------------- the page

  /** `handleSort`: a second click on the ascending column makes it
      descending; any other click sorts the clicked column ascending. */
  function NextSort(c: SortConfig, key: SortKey): SortConfig
  {
    if c.key == Some(key) && c.direction == Asc then SortConfig(Some(key), Desc)
    else SortConfig(Some(key), Asc)
  }

  /** Clicking a column sorts by it; a new column starts ascending, and two
      clicks on the sorted column bring back the order it had. */
  lemma NextSortCycle(c: SortConfig, key: SortKey)
    ensures NextSort(c, key).key == Some(key)
    ensures c.key != Some(key) ==> NextSort(c, key).direction == Asc
    ensures c.key == Some(key) ==> NextSort(c, key).direction != c.direction
    ensures c.key == Some(key) ==> NextSort(NextSort(c, key), key) == c
  {
  }

  /** The rows shown: the channels as they came without a sort column,
      otherwise sorted by it. */
  function Shown(channels: seq<Channel>, c: SortConfig): (r: seq<Channel>)
    ensures |r| == |channels| && multiset(r) == multiset(channels)
  {
    if c.key.None? then channels
    else
      SortPermutation(channels, Comparator(c.key.value, c.direction));
      Sort(channels, Comparator(c.key.value, c.direction))
  }

  /** The rows shown are the channels, each as often as it came; sorted
      by a column, its values never decrease (ascending) or never increase
      (descending) down the table, and channels with the same value keep
      the order they came in. */
  lemma ShownSpec(channels: seq<Channel>, c: SortConfig)
    ensures multiset(Shown(channels, c)) == multiset(channels)
    ensures c.key.None? ==> Shown(channels, c) == channels
    ensures c.key.Some? && c.direction == Asc ==>
              forall i, j :: 0 <= i < j < |channels| ==>
                !Less(SortValue(Shown(channels, c)[j], c.key.value), SortValue(Shown(channels, c)[i], c.key.value))
    ensures c.key.Some? && c.direction == Desc ==>
              forall i, j :: 0 <= i < j < |channels| ==>
                !Less(SortValue(Shown(channels, c)[i], c.key.value), SortValue(Shown(channels, c)[j], c.key.value))
    ensures c.key.Some? ==> forall w :: Ties(Shown(channels, c), Comparator(c.key.value, c.direction), w) ==
                                         Ties(channels, Comparator(c.key.value, c.direction), w)
  {
    if c.key.Some? {
      var key, dir := c.key.value, c.direction;
      var cmp := Comparator(key, dir);
      var r := Sort(channels, cmp);
      SortPermutation(channels, cmp);
      assert |r| == |channels| by {
        assert |multiset(r)| == |multiset(channels)|;
      }
      ComparatorConsistent(key, dir);
      SortSorted(channels, cmp);
      forall i, j | 0 <= i < j < |channels|
        ensures dir == Asc ==> !Less(SortValue(r[j], key), SortValue(r[i], key))
        ensures dir == Desc ==> !Less(SortValue(r[i], key), SortValue(r[j], key))
      {
        assert cmp(r[i], r[j]) <= 0;
      }
      forall w
        ensures Ties(r, cmp, w) == Ties(channels, cmp, w)
      {
        SortStable(channels, cmp, w);
      }
    }
  }

  /** Sorting by a column twice in a row gives the same rows as once. */
  lemma ShownTwice(channels: seq<Channel>, c: SortConfig)
    ensures Shown(Shown(channels, c), c) == Shown(channels, c)
  {
    if c.key.Some? {
      ComparatorConsistent(c.key.value, c.direction);
      SortTwice(channels, Comparator(c.key.value, c.direction));
    }
  }

  class StatusPage {
    var channels: seq<Channel>
    var sortConfig: SortConfig

    /** The page after `fetchChannels` has loaded `channels`. */
    constructor(channels: seq<Channel>)
      ensures this.channels == channels && sortConfig == InitialSort
    {
      this.channels := channels;
      sortConfig := InitialSort;
    }

    /** `handleSort`: the new sort state, the channels untouched. */
    method HandleSort(key: SortKey)
      modifies this
      ensures sortConfig == NextSort(old(sortConfig), key)
      ensures channels == old(channels)
    {
      var direction := Asc;
      if sortConfig.key == Some(key) && sortConfig.direction == Asc {
        direction := Desc;
      }
      sortConfig := SortConfig(Some(key), direction);
    }

    /** `sortedChannels`: copies the channels and sorts the copy, leaving
      the page's own list untouched. */
    method SortedChannels() returns (r: seq<Channel>)
      ensures r == Shown(channels, sortConfig)
    {
      var cs := channels;
      var a := new Channel[|cs|](i requires 0 <= i < |cs| => cs[i]);
      assert a[..] == cs;
      if sortConfig.key.Some? {
        SortInPlace(a, Comparator(sortConfig.key.value, sortConfig.direction));
      }
      r := a[..];
    }
  }
}
