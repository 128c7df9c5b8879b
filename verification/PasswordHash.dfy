/** Password hashes in PHC string format. argon2 itself stays a parameter. */
module PasswordHash {
  import opened Common
  import opened Base64
  import opened Decimal
  import opened Splitting

  const VERSION: int := 19
  const UINT32: nat := 0x1_0000_0000
  const UINT8: nat := 256
  const MAX_INT64: nat := 0x7fff_ffff_ffff_ffff

  datatype Params = Params(memory: nat, iterations: nat, parallelism: nat, saltLength: nat, keyLength: nat)

  predicate InRange(p: Params) {
    p.memory < UINT32 && p.iterations < UINT32 && p.parallelism < UINT8 && p.keyLength < UINT32
  }

  const DEFAULTS := Params(64 * 1024, 3, 2, 16, 32)

  /** The conversion of a length to uint32. */
  function Word(n: nat): nat {
    n % UINT32
  }

  lemma WordOfSmall(n: nat)
    requires n < UINT32
    ensures Word(n) == n
  {
  }

  datatype HashError = InvalidHash | IncompatibleParams

  /** password, salt, iterations, memory, parallelism, key length. */
  type Kdf = (string, seq<Byte>, nat, nat, nat, nat) -> seq<Byte>

  ghost predicate HonoursLength(kdf: Kdf) {
    forall pw, salt, t, m, p, k :: |kdf(pw, salt, t, m, p, k)| == k
  }

  // ----- printing -----

  function Costs(p: Params): string {
    "m=" + (Print(p.memory) + (",t=" + (Print(p.iterations) + (",p=" + Print(p.parallelism)))))
  }

  /** The pieces between the dollar signs. */
  function Pieces(p: Params, salt: seq<Byte>, key: seq<Byte>): seq<string> {
    ["", "argon2id", "v=" + Print(VERSION), Costs(p), Encode(salt), Encode(key)]
  }

  function Format(p: Params, salt: seq<Byte>, key: seq<Byte>): string {
    Join(Pieces(p, salt, key), '$')
  }

  function Hash(kdf: Kdf, p: Params, salt: seq<Byte>, password: string): string {
    Format(p, salt, kdf(password, salt, p.iterations, p.memory, p.parallelism, p.keyLength))
  }

  // ----- parsing -----

  function Literal(s: string, lit: string): Option<string> {
    if lit <= s then Some(s[|lit|..]) else None
  }

  /** Sscanf with "v=%d"; what follows the number is not looked at. */
  function ScanVersion(s: string): Option<int> {
    match Literal(s, "v=")
    case None => None
    case Some(rest) => match ScanInt(rest, MAX_INT64)
                       case Some((v, _)) => Some(v)
                       case None => None
  }

  /** A literal and then an unsigned number below a bound. */
  function ScanField(s: string, lit: string, bound: nat): Option<(nat, string)>
    requires bound > 0
  {
    match Literal(s, lit)
    case None => None
    case Some(rest) => ScanUint(rest, bound - 1)
  }

  /** Sscanf with "m=%d,t=%d,p=%d" into two uint32 and a uint8. */
  function ScanCosts(s: string): Option<(nat, nat, nat)> {
    match ScanField(s, "m=", UINT32)
    case None => None
    case Some((m, s1)) =>
      match ScanField(s1, ",t=", UINT32)
      case None => None
      case Some((t, s2)) =>
        match ScanField(s2, ",p=", UINT8)
        case None => None
        case Some((p, _)) => Some((m, t, p))
  }

  function DecodeHash(encoded: string): Result<(Params, seq<Byte>, seq<Byte>), HashError> {
    DecodePieces(Split(encoded, '$'))
  }

  function DecodePieces(parts: seq<string>): Result<(Params, seq<Byte>, seq<Byte>), HashError> {
    if |parts| != 6 || parts[1] != "argon2id" then Err(InvalidHash)
    else if ScanVersion(parts[2]).None? then Err(InvalidHash)
    else if ScanVersion(parts[2]).value != VERSION then Err(IncompatibleParams)
    else
      match (ScanCosts(parts[3]), Base64.Decode(parts[4]), Base64.Decode(parts[5]))
      case (Some((m, t, p)), Some(salt), Some(key)) =>
        Ok((Params(m, t, p, Word(|salt|), Word(|key|)), salt, key))
      case _ => Err(InvalidHash)
  }

  function Verify(kdf: Kdf, encoded: string, password: string): Result<bool, HashError> {
    match DecodeHash(encoded)
    case Err(e) => Err(e)
    case Ok((p, salt, want)) =>
      Ok(kdf(password, salt, p.iterations, p.memory, p.parallelism, Word(|want|)) == want)
  }

  function NeedsRehash(current: Params, encoded: string): bool {
    match DecodeHash(encoded)
    case Err(_) => true
    case Ok((p, _, _)) =>
      p.memory < current.memory || p.iterations < current.iterations || p.parallelism < current.parallelism
  }

  // ----- the pieces of a printed hash -----

  lemma PrintedHasNoDollar(n: nat)
    ensures Without(Print(n), '$')
  {
    PrintedDigits(n);
  }

  lemma CostsHaveNoDollar(p: Params)
    ensures Without(Costs(p), '$')
  {
    PrintedHasNoDollar(p.memory);
    PrintedHasNoDollar(p.iterations);
    PrintedHasNoDollar(p.parallelism);
  }

  lemma FormatSplits(p: Params, salt: seq<Byte>, key: seq<Byte>)
    ensures Split(Format(p, salt, key), '$') == Pieces(p, salt, key)
  {
    PrintedHasNoDollar(VERSION);
    CostsHaveNoDollar(p);
    EncodedIsPrintable(salt);
    EncodedIsPrintable(key);
    SplitJoin(Pieces(p, salt, key), '$');
  }

  lemma VersionRoundTrip()
    ensures ScanVersion("v=" + Print(VERSION)) == Some(VERSION)
  {
    ScanPrinted(VERSION, "", MAX_INT64);
    assert Print(VERSION) + "" == Print(VERSION) == ("v=" + Print(VERSION))[2..];
  }

  lemma ScanFieldPrinted(lit: string, n: nat, rest: string, bound: nat)
    requires n < bound && (rest == "" || !IsDigit(rest[0]))
    ensures ScanField(lit + (Print(n) + rest), lit, bound) == Some((n, rest))
  {
    var s := lit + (Print(n) + rest);
    assert s[|lit|..] == Print(n) + rest;
    ScanPrinted(n, rest, bound - 1);
  }

  lemma CostsRoundTrip(p: Params)
    requires InRange(p)
    ensures ScanCosts(Costs(p)) == Some((p.memory, p.iterations, p.parallelism))
  {
    var s2 := ",p=" + Print(p.parallelism);
    var s1 := ",t=" + (Print(p.iterations) + s2);
    ScanFieldPrinted("m=", p.memory, s1, UINT32);
    ScanFieldPrinted(",t=", p.iterations, s2, UINT32);
    assert Print(p.parallelism) + "" == Print(p.parallelism);
    ScanFieldPrinted(",p=", p.parallelism, "", UINT8);
  }

  // ----- the theorems -----

  lemma JoinTwo(a: string, parts: seq<string>)
    requires parts != []
    ensures Join([a] + parts, '$') == a + ['$'] + Join(parts, '$')
  {
    assert ([a] + parts)[1..] == parts;
  }

  lemma JoinSix(a: string, b: string, c: string, d: string, e: string, f: string)
    ensures Join([a, b, c, d, e, f], '$')
            == a + ['$'] + (b + ['$'] + (c + ['$'] + (d + ['$'] + (e + ['$'] + f))))
  {
    JoinTwo(e, [f]);
    JoinTwo(d, [e, f]);
    JoinTwo(c, [d, e, f]);
    JoinTwo(b, [c, d, e, f]);
    JoinTwo(a, [b, c, d, e, f]);
    assert [e] + [f] == [e, f] && [d] + [e, f] == [d, e, f] && [c] + [d, e, f] == [c, d, e, f];
    assert [b] + [c, d, e, f] == [b, c, d, e, f] && [a] + [b, c, d, e, f] == [a, b, c, d, e, f];
  }

  lemma VersionInDecimal()
    ensures Print(19) == "19"
  {
    assert Print(19) == Print(1) + [Digit(9)];
  }

  /** What is stored, character by character. */
  lemma FormatIsPhc(p: Params, salt: seq<Byte>, key: seq<Byte>)
    ensures var costs := "m=" + (Print(p.memory) + (",t=" + (Print(p.iterations) + (",p=" + Print(p.parallelism)))));
            Format(p, salt, key)
            == "" + ['$'] + ("argon2id" + ['$'] + ("v=19" + ['$'] + (costs + ['$'] + (Encode(salt) + ['$'] + Encode(key)))))
  {
    VersionInDecimal();
    assert "v=" + "19" == "v=19";
    JoinSix("", "argon2id", "v=19", Costs(p), Encode(salt), Encode(key));
  }

  /** As shipped: 64 MiB, three passes, two lanes, a salt of sixteen bytes and a key of
      thirty-two; no later default makes such a hash unreadable. */
  lemma ShippedParams(kdf: Kdf, salt: seq<Byte>, password: string)
    requires HonoursLength(kdf) && |salt| == DEFAULTS.saltLength
    ensures DEFAULTS == Params(65536, 3, 2, 16, 32)
    ensures var key := kdf(password, salt, 3, 65536, 2, 32);
            |key| == 32 && DecodeHash(Hash(kdf, DEFAULTS, salt, password)) == Ok((DEFAULTS, salt, key))
  {
    var key := kdf(password, salt, 3, 65536, 2, 32);
    HashRoundTrip(DEFAULTS, salt, key);
    WordOfSmall(16);
    WordOfSmall(32);
  }

  /** Any text at all: which are hashes, and which of the two refusals the others get. */
  lemma DecodeCases(encoded: string)
    ensures var parts, r := Split(encoded, '$'), DecodeHash(encoded);
            var shaped := |parts| == 6 && parts[1] == "argon2id" && ScanVersion(parts[2]).Some?;
            && (r == Err(IncompatibleParams) <==> shaped && ScanVersion(parts[2]).value != 19)
            && (r.Ok? <==> && shaped && ScanVersion(parts[2]).value == 19 && ScanCosts(parts[3]).Some?
                           && Base64.Decode(parts[4]).Some? && Base64.Decode(parts[5]).Some?)
            && (r.Ok? ==>
                  var (p, salt, key) := r.value;
                  && Base64.Decode(parts[4]) == Some(salt) && Base64.Decode(parts[5]) == Some(key)
                  && ScanCosts(parts[3]) == Some((p.memory, p.iterations, p.parallelism)))
  {
  }

  /** A text that is no hash is an error to verify, whatever the password, and always
      due for replacement. */
  lemma MalformedIsAnError(kdf: Kdf, encoded: string, password: string, current: Params)
    requires DecodeHash(encoded).Err?
    ensures Verify(kdf, encoded, password) == Err(DecodeHash(encoded).error)
    ensures NeedsRehash(current, encoded)
  {
  }

  lemma PrintedVersionScans(v: nat)
    requires v <= MAX_INT64
    ensures ScanVersion("v=" + Print(v)) == Some(v)
  {
    ScanPrinted(v, "", MAX_INT64);
    assert Print(v) + "" == Print(v) == ("v=" + Print(v))[2..];
  }

  /** A hash of another version is told from a malformed one. */
  lemma OtherVersionsAreIncompatible(v: nat, costs: string, salted: string, keyed: string)
    requires v <= MAX_INT64 && v != 19 && Without(costs, '$') && Without(salted, '$') && Without(keyed, '$')
    ensures DecodeHash(Join(["", "argon2id", "v=" + Print(v), costs, salted, keyed], '$')) == Err(IncompatibleParams)
  {
    PrintedHasNoDollar(v);
    SplitJoin(["", "argon2id", "v=" + Print(v), costs, salted, keyed], '$');
    PrintedVersionScans(v);
  }

  lemma DecodeGoodParts(p: Params, parts: seq<string>, salt: seq<Byte>, key: seq<Byte>)
    requires |parts| == 6 && parts[1] == "argon2id" && ScanVersion(parts[2]) == Some(VERSION)
    requires ScanCosts(parts[3]) == Some((p.memory, p.iterations, p.parallelism))
    requires Base64.Decode(parts[4]) == Some(salt) && Base64.Decode(parts[5]) == Some(key)
    ensures DecodePieces(parts) == Ok((p.(saltLength := Word(|salt|), keyLength := Word(|key|)), salt, key))
  {
  }

  lemma DecodeGoodPieces(p: Params, v: string, costs: string, salted: string, keyed: string, salt: seq<Byte>, key: seq<Byte>)
    requires ScanVersion(v) == Some(VERSION)
    requires ScanCosts(costs) == Some((p.memory, p.iterations, p.parallelism))
    requires Base64.Decode(salted) == Some(salt) && Base64.Decode(keyed) == Some(key)
    ensures DecodePieces(["", "argon2id", v, costs, salted, keyed])
            == Ok((p.(saltLength := Word(|salt|), keyLength := Word(|key|)), salt, key))
  {
    DecodeGoodParts(p, ["", "argon2id", v, costs, salted, keyed], salt, key);
  }

  lemma PiecesRoundTrip(p: Params, salt: seq<Byte>, key: seq<Byte>)
    requires InRange(p)
    ensures DecodePieces(Pieces(p, salt, key))
            == Ok((p.(saltLength := Word(|salt|), keyLength := Word(|key|)), salt, key))
  {
    VersionRoundTrip();
    CostsRoundTrip(p);
    RoundTrip(salt);
    RoundTrip(key);
    DecodeGoodPieces(p, "v=" + Print(VERSION), Costs(p), Encode(salt), Encode(key), salt, key);
  }

  /** Whatever the parameters, the salt and the key, parsing a printed hash gives
      them back. */
  lemma HashRoundTrip(p: Params, salt: seq<Byte>, key: seq<Byte>)
    requires InRange(p)
    ensures DecodeHash(Format(p, salt, key))
            == Ok((p.(saltLength := Word(|salt|), keyLength := Word(|key|)), salt, key))
  {
    FormatSplits(p, salt, key);
    PiecesRoundTrip(p, salt, key);
  }

  lemma VerifyDecoded(kdf: Kdf, encoded: string, p: Params, salt: seq<Byte>, key: seq<Byte>, attempt: string)
    requires DecodeHash(encoded) == Ok((p, salt, key))
    ensures Verify(kdf, encoded, attempt)
            == Ok(kdf(attempt, salt, p.iterations, p.memory, p.parallelism, Word(|key|)) == key)
  {
  }

  /** A stored hash accepts exactly the passwords whose derived key is the same; in
      particular the one it was made from, whatever the current configuration. */
  lemma VerifyOwnHash(kdf: Kdf, p: Params, salt: seq<Byte>, password: string, attempt: string)
    requires InRange(p) && HonoursLength(kdf)
    ensures Verify(kdf, Hash(kdf, p, salt, password), password) == Ok(true)
    ensures Verify(kdf, Hash(kdf, p, salt, password), attempt)
            == Ok(kdf(attempt, salt, p.iterations, p.memory, p.parallelism, p.keyLength)
                  == kdf(password, salt, p.iterations, p.memory, p.parallelism, p.keyLength))
  {
    var key := kdf(password, salt, p.iterations, p.memory, p.parallelism, p.keyLength);
    var back := p.(saltLength := Word(|salt|), keyLength := Word(|key|));
    HashRoundTrip(p, salt, key);
    WordOfSmall(|key|);
    VerifyDecoded(kdf, Hash(kdf, p, salt, password), back, salt, key, password);
    VerifyDecoded(kdf, Hash(kdf, p, salt, password), back, salt, key, attempt);
  }

  /** A hash needs replacing exactly when one of its costs is below today's. */
  lemma RehashExactlyWhenWeaker(kdf: Kdf, p: Params, salt: seq<Byte>, password: string, current: Params)
    requires InRange(p)
    ensures NeedsRehash(current, Hash(kdf, p, salt, password))
            <==> p.memory < current.memory || p.iterations < current.iterations || p.parallelism < current.parallelism
    ensures !NeedsRehash(p, Hash(kdf, p, salt, password))
  {
    HashRoundTrip(p, salt, kdf(password, salt, p.iterations, p.memory, p.parallelism, p.keyLength));
  }

  /** Two hashes print alike only if they are alike. */
  lemma FormatIsInjective(p: Params, salt: seq<Byte>, key: seq<Byte>, p': Params, salt': seq<Byte>, key': seq<Byte>)
    requires InRange(p) && InRange(p') && Format(p, salt, key) == Format(p', salt', key')
    ensures salt == salt' && key == key'
    ensures p.memory == p'.memory && p.iterations == p'.iterations && p.parallelism == p'.parallelism
  {
    HashRoundTrip(p, salt, key);
    HashRoundTrip(p', salt', key');
  }
}
