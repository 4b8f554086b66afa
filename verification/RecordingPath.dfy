/** Names of recovery recordings: `stem.reconnect-NNN.ext`, the least number that
  * is free. */
module RecordingPath {
  import opened Wrappers

  datatype Path = Path(parent: string, name: string)

  const MaxSegment := 0xffff_ffff_ffff_ffff

  type Digit = c: char | '0' <= c <= '9' witness '0'

  function DigitOf(n: nat): Digit
    requires n < 10
  {
    '0' + n as char
  }

  function Digits(n: nat): (r: seq<Digit>)
    ensures r != []
  {
    if n < 10 then [DigitOf(n)] else Digits(n / 10) + [DigitOf(n % 10)]
  }

  function Zeros(n: nat): (r: seq<Digit>)
    ensures |r| == n
  {
    if n == 0 then [] else ['0'] + Zeros(n - 1)
  }

  /** At least three digits, padded with zeros on the left. */
  function Padded(n: nat): seq<Digit> {
    Zeros(if |Digits(n)| < 3 then 3 - |Digits(n)| else 0) + Digits(n)
  }

  function Number(digits: seq<Digit>): nat {
    if digits == [] then 0 else 10 * Number(digits[..|digits| - 1]) + (digits[|digits| - 1] - '0') as nat
  }

  lemma {:induction false} NumberOfDigits(n: nat)
    ensures Number(Digits(n)) == n
    decreases n
  {
    if n >= 10 {
      NumberOfDigits(n / 10);
      assert Digits(n)[..|Digits(n)| - 1] == Digits(n / 10);
    }
  }

  lemma {:induction false} LeadingZeros(k: nat, digits: seq<Digit>)
    ensures Number(Zeros(k) + digits) == Number(digits)
    decreases k + |digits|
  {
    var all := Zeros(k) + digits;
    if digits != [] {
      assert all[..|all| - 1] == Zeros(k) + digits[..|digits| - 1];
      LeadingZeros(k, digits[..|digits| - 1]);
    } else if k > 0 {
      ZerosLast(k);
      assert all == Zeros(k) && all[..|all| - 1] == Zeros(k - 1) + [];
      LeadingZeros(k - 1, []);
    }
  }

  lemma {:induction false} ZerosLast(k: nat)
    requires k > 0
    ensures Zeros(k) == Zeros(k - 1) + ['0']
  {
    if k > 1 { ZerosLast(k - 1); }
  }

  lemma {:induction false} NumberOfPadded(n: nat)
    ensures Number(Padded(n)) == n
  {
    NumberOfDigits(n);
    LeadingZeros(if |Digits(n)| < 3 then 3 - |Digits(n)| else 0, Digits(n));
  }

  lemma {:induction false} DigitsLead(n: nat)
    ensures n > 0 ==> Digits(n)[0] != '0'
    ensures |Digits(n)| == 1 <==> n < 10
    decreases n
  {
    if n >= 10 { DigitsLead(n / 10); }
  }

  /** A number is written with three digits, or with as many as it needs. */
  lemma {:induction false} PaddedExact(n: nat)
    ensures |Padded(n)| >= 3 && Number(Padded(n)) == n && (|Padded(n)| > 3 ==> Padded(n)[0] != '0')
  {
    NumberOfPadded(n);
    DigitsLead(n);
  }

  // ---------------------------------------------------------- stem and extension

  function LastDot(name: string): (r: Option<nat>)
    ensures r.Some? ==> r.value < |name| && name[r.value] == '.'
  {
    if name == [] then None
    else if name[|name| - 1] == '.' then Some(|name| - 1)
    else LastDot(name[..|name| - 1])
  }

  function Stem(name: string): Option<string> {
    if name in {"", ".", ".."} then None
    else if LastDot(name).None? || LastDot(name).value == 0 then Some(name)
    else Some(name[..LastDot(name).value])
  }

  function Extension(name: string): Option<string> {
    if name in {"", ".", ".."} || LastDot(name).None? || LastDot(name).value == 0 then None
    else Some(name[LastDot(name).value + 1..])
  }

  lemma {:induction false} LastDotIsLast(name: string)
    ensures LastDot(name).None? <==> '.' !in name
    ensures LastDot(name).Some? ==> '.' !in name[LastDot(name).value + 1..]
    decreases |name|
  {
    if name != [] && name[|name| - 1] != '.' {
      var front := name[..|name| - 1];
      LastDotIsLast(front);
      assert name == front + [name[|name| - 1]];
      if LastDot(front).Some? {
        var at := LastDot(front).value + 1;
        assert name[at..] == front[at..] + [name[|name| - 1]];
      }
    }
  }

  /** A name splits at its last dot unless that is its first character; the empty
    * name and those of directories have no stem. */
  lemma {:induction false} StemExact(name: string)
    ensures Stem(name).None? <==> name in {"", ".", ".."}
    ensures Stem(name).Some? ==>
              match Extension(name)
              case None => Stem(name).value == name && '.' !in name[1..]
              case Some(extension) =>
                && name == Stem(name).value + "." + extension && Stem(name).value != "" && '.' !in extension
  {
    LastDotIsLast(name);
    if name != "" && LastDot(name).Some? {
      var at := LastDot(name).value;
      assert name == name[..at] + "." + name[at + 1..];
    } else if name != "" {
      assert forall c :: c in name[1..] ==> c in name;
    }
  }

  function RecoveryName(stem: string, extension: Option<string>, segment: nat): string {
    stem + ".reconnect-" + Padded(segment) + if extension.Some? then "." + extension.value else ""
  }

  function RecoveryPath(root: Path, segment: nat): Option<Path> {
    if Stem(root.name).None? then None
    else Some(Path(root.parent, RecoveryName(Stem(root.name).value, Extension(root.name), segment)))
  }

  /** Different segments of one recording never share a name. */
  lemma {:induction false} NamingInjective(root: Path, a: nat, b: nat)
    requires Stem(root.name).Some?
    ensures RecoveryPath(root, a) == RecoveryPath(root, b) <==> a == b
  {
    var head := Stem(root.name).value + ".reconnect-";
    var tail := if Extension(root.name).Some? then "." + Extension(root.name).value else "";
    if RecoveryPath(root, a) == RecoveryPath(root, b) {
      var name := RecoveryPath(root, a).value.name;
      assert name == head + Padded(a) + tail && name == head + Padded(b) + tail;
      assert |Padded(a)| == |Padded(b)|;
      assert Padded(a) == name[|head|..|head| + |Padded(a)|];
      assert Padded(b) == name[|head|..|head| + |Padded(b)|];
      NumberOfPadded(a);
      NumberOfPadded(b);
    }
  }

  /** And none is the original name. */
  lemma {:induction false} RecoveryIsNotRoot(root: Path, segment: nat)
    requires Stem(root.name).Some?
    ensures RecoveryPath(root, segment) != Some(root)
  {
    var name := root.name;
    assert |RecoveryPath(root, segment).value.name| > |name| by {
      if Extension(name).Some? { assert |name| == |Stem(name).value| + 1 + |Extension(name).value|; }
    }
  }

  // ------------------------------------------------------------ the least free

  datatype Search = NoStem | Overflow | Chosen(path: Path, segment: nat)

  /** The search from a number on. */
  function SearchFrom(root: Path, segment: nat, files: set<Path>): Search
    requires segment <= MaxSegment
    decreases MaxSegment - segment
  {
    var candidate := RecoveryPath(root, segment);
    if candidate.None? then NoStem
    else if candidate.value !in files then Chosen(candidate.value, segment)
    else if segment == MaxSegment then Overflow
    else SearchFrom(root, segment + 1, files)
  }

  function NextRecovery(root: Path, first: nat, files: set<Path>): Search
    requires first <= MaxSegment
  {
    SearchFrom(root, if first < 1 then 1 else first, files)
  }

  /** The name of a number is in use. */
  predicate Taken(root: Path, files: set<Path>, k: nat) {
    RecoveryPath(root, k).Some? && RecoveryPath(root, k).value in files
  }

  predicate AllTaken(root: Path, files: set<Path>, first: nat, end: nat) {
    forall k :: first <= k < end ==> Taken(root, files, k)
  }

  lemma {:induction false} OneMoreTaken(root: Path, files: set<Path>, first: nat, end: nat)
    requires Taken(root, files, first) && AllTaken(root, files, first + 1, end)
    ensures AllTaken(root, files, first, end)
  {
  }

  /** The chosen number is the least free one; the search overflows only when
    * every number is taken. */
  lemma {:induction false} SearchIsLeast(root: Path, first: nat, files: set<Path>)
    requires first <= MaxSegment
    ensures match SearchFrom(root, first, files)
            case NoStem => Stem(root.name).None?
            case Overflow => AllTaken(root, files, first, MaxSegment + 1)
            case Chosen(path, segment) =>
              && first <= segment <= MaxSegment && RecoveryPath(root, segment) == Some(path) && path !in files
              && AllTaken(root, files, first, segment)
    decreases MaxSegment - first
  {
    var candidate := RecoveryPath(root, first);
    if candidate.Some? && candidate.value in files && first < MaxSegment {
      SearchIsLeast(root, first + 1, files);
      match SearchFrom(root, first + 1, files)
      case NoStem =>
      case Overflow => OneMoreTaken(root, files, first, MaxSegment + 1);
      case Chosen(_, segment) => OneMoreTaken(root, files, first, segment);
    }
  }

  /** A number from `first` on, and not zero, whose name is free. */
  ghost predicate SomeFree(root: Path, first: nat, files: set<Path>) {
    exists k: nat :: first <= k <= MaxSegment && k > 0 && !Taken(root, files, k)
  }

  /** The next recovery name is the least free one from `first` on, zero left out;
    * there is one exactly when the name has a stem and some number is free. */
  lemma {:induction false} NextIsLeast(root: Path, first: nat, files: set<Path>)
    requires first <= MaxSegment
    ensures NextRecovery(root, first, files).Chosen? <==> Stem(root.name).Some? && SomeFree(root, first, files)
    ensures match NextRecovery(root, first, files)
            case NoStem => Stem(root.name).None?
            case Overflow => true
            case Chosen(path, segment) =>
              && first <= segment <= MaxSegment && segment > 0 && RecoveryPath(root, segment) == Some(path)
              && path !in files && AllTaken(root, files, if first == 0 then 1 else first, segment)
  {
    var from := if first == 0 then 1 else first;
    SearchIsLeast(root, from, files);
    match SearchFrom(root, from, files)
    case NoStem =>
    case Overflow =>
      assert forall k :: from <= k <= MaxSegment ==> Taken(root, files, k);
    case Chosen(_, segment) => assert !Taken(root, files, segment);
  }

  lemma {:induction false} TakenNamesCount(root: Path, first: nat, last: nat, files: set<Path>)
    requires first <= last && Stem(root.name).Some?
    requires forall k :: first <= k <= last ==> Taken(root, files, k)
    ensures |files| >= last - first + 1
    decreases last - first
  {
    assert Taken(root, files, last);
    var path := RecoveryPath(root, last).value;
    var others := files - {path};
    assert |others| == |files| - 1;
    if first < last {
      forall k | first <= k <= last - 1 ensures Taken(root, others, k) {
        assert Taken(root, files, k);
        NamingInjective(root, k, last);
      }
      TakenNamesCount(root, first, last - 1, others);
    }
  }

  /** The search ends on a free name in any directory that could exist. */
  lemma {:induction false} SearchSucceeds(root: Path, first: nat, files: set<Path>)
    requires first <= MaxSegment && Stem(root.name).Some? && |files| <= MaxSegment - first
    ensures SearchFrom(root, first, files).Chosen?
  {
    SearchIsLeast(root, first, files);
    if SearchFrom(root, first, files).Overflow? {
      TakenNamesCount(root, first, MaxSegment, files);
    }
  }

  /** The search as it runs. */
  method NextRecoveryRecordingPath(root: Path, first: nat, files: set<Path>) returns (r: Search)
    requires first <= MaxSegment
    ensures r == NextRecovery(root, first, files)
  {
    var segment := if first < 1 then 1 else first;
    while true
      invariant segment <= MaxSegment
      invariant NextRecovery(root, first, files) == SearchFrom(root, segment, files)
      decreases MaxSegment - segment
    {
      var candidate := RecoveryPath(root, segment);
      if candidate.None? { return NoStem; }
      if candidate.value !in files { return Chosen(candidate.value, segment); }
      if segment == MaxSegment { return Overflow; }
      segment := segment + 1;
    }
  }
}
