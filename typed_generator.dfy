/** The typed value synthesizers of `Generator`: each turns draws from a
    random source into the SQL literal text of one column value. */
module TypedGenerator {
  import opened MachineInts
  import opened Strings
  import opened Wrappers
  import opened JsonText

  /** The random number generator the synthesizers consume. Callers rely only
      on `Draw`'s contract, so every property below holds for every sequence
      of draws; the body is one arbitrary implementation of that contract. */
  class RandomSource {
    var state: nat

    constructor (seed: nat)
      ensures state == seed
    {
      state := seed;
    }

    /** A value in the half-open range `[lo, hi)`; an empty range is refused. */
    method Draw(lo: int, hi: int) returns (r: int)
      requires lo < hi
      modifies this
      ensures lo <= r < hi
    {
      r := lo + state % (hi - lo);
      state := (state * 6364136223846793005 + 1442695040888963407) % 0x1_0000_0000_0000_0000;
    }
  }

  /** A `%Y-%m-%dT%H:%M:%SZ` timestamp: four-digit year, then two-digit month,
      day, hour, minute and second. */
  predicate IsTimestamp(s: string) {
    && |s| == 20
    && AllDigits(s[0..4]) && s[4] == '-' && AllDigits(s[5..7]) && s[7] == '-'
    && AllDigits(s[8..10]) && s[10] == 'T' && AllDigits(s[11..13]) && s[13] == ':'
    && AllDigits(s[14..16]) && s[16] == ':' && AllDigits(s[17..19]) && s[19] == 'Z'
  }

  /** The wall clock `get_time` reads, already moved back 48 hours and
      formatted. Each reading may differ from the one before. */
  class Clock {
    var reading: string

    ghost predicate Valid()
      reads this
    {
      IsTimestamp(reading)
    }

    constructor (initial: string)
      requires IsTimestamp(initial)
      ensures Valid() && reading == initial
    {
      reading := initial;
    }

    method TwoDaysAgo() returns (s: string)
      requires Valid()
      modifies this
      ensures Valid()
      ensures IsTimestamp(s)
    {
      s := reading;
    }
  }

  /** The draw `get_float` divides by 100: an integer in `[0, 99)`. */
  type Hundredths = a: nat | a < 99

  /** `a / 100` in shortest decimal notation: "0", "0.d" or "0.dd". */
  function FloatText(a: Hundredths): (r: string)
    ensures 1 <= |r| <= 4 && r[0] == '0'
    ensures r == "0" <==> a == 0
    ensures |r| == 4 <==> a % 10 != 0
  {
    if a == 0 then "0"
    else if a % 10 == 0 then "0." + [DigitChar(a / 10)]
    else "0." + [DigitChar(a / 10), DigitChar(a % 10)]
  }

  /** Reads a decimal in `[0, 1)` with at most two fractional digits back as hundredths. */
  function HundredthsOf(s: string): Option<nat>
  {
    if s == "0" then Some(0)
    else if |s| == 3 && s[..2] == "0." && IsDigit(s[2]) then Some(10 * DigitValue(s[2]))
    else if |s| == 4 && s[..2] == "0." && IsDigit(s[2]) && IsDigit(s[3])
    then Some(10 * DigitValue(s[2]) + DigitValue(s[3]))
    else None
  }

  /** The float text denotes exactly the hundredths drawn: distinct draws give distinct texts. */
  lemma FloatTextRoundTrip(a: Hundredths)
    ensures HundredthsOf(FloatText(a)) == Some(a)
    ensures 1 <= |FloatText(a)| <= 4 && FloatText(a)[0] == '0'
  {
    var s := FloatText(a);
    if a != 0 {
      assert s[..2] == "0.";
    }
  }

  /** Rust's `bool::to_string`. */
  function BoolText(b: bool): (r: string)
    ensures r == "true" || r == "false"
    ensures b <==> r == "true"
  {
    if b then "true" else "false"
  }

  /** The value behind a generated literal: what was drawn, before rendering. */
  datatype Drawn =
    | DrawnText(chars: string)
    | DrawnInt(n: nat)
    | DrawnFloat(hundredths: Hundredths)
    | DrawnBool(b: bool)
    | DrawnTime(stamp: string)
    | DrawnJson(keys: seq<string>)

  /** The literal text each synthesizer returns for what it drew. */
  function Render(d: Drawn): string
  {
    match d
    case DrawnText(chars) => chars
    case DrawnInt(n) => DecimalText(n)
    case DrawnFloat(a) => FloatText(a)
    case DrawnBool(b) => BoolText(b)
    case DrawnTime(stamp) => stamp
    case DrawnJson(keys) => JsonObject(keys)
  }

  /** Ten keys, each a `get_text(3)` result: at most two alphabet characters. */
  predicate JsonKeysFit(keys: seq<string>) {
    |keys| == 10 && forall i :: 0 <= i < |keys| ==> |keys[i]| < 3 && FromCharset(keys[i])
  }

  class Generator {
    const rng: RandomSource
    const clock: Clock

    ghost predicate Valid()
      reads clock
    {
      clock.Valid()
    }

    constructor (rng: RandomSource, clock: Clock)
      requires clock.Valid()
      ensures this.rng == rng && this.clock == clock
      ensures Valid()
    {
      this.rng := rng;
      this.clock := clock;
    }

    /** `get_text`: a length in `[0, maxlength)`, then that many alphabet characters. */
    method GetText(maxlength: i32) returns (s: string)
      requires maxlength >= 1
      modifies rng
      ensures |s| < maxlength
      ensures FromCharset(s)
    {
      var len := rng.Draw(0, maxlength);
      s := "";
      var i := 0;
      while i < len
        invariant 0 <= i <= len
        invariant |s| == i
        invariant FromCharset(s)
      {
        var idx := rng.Draw(0, |CHARSET|);
        CharsetAt(idx);
        s := s + [CHARSET[idx]];
        i := i + 1;
      }
    }

    /** `get_int`: a 32-bit draw reduced modulo 1000, in decimal. */
    method GetInt() returns (s: string, ghost n: nat)
      modifies rng
      ensures n < 1000
      ensures s == DecimalText(n)
    {
      var x := rng.Draw(0, U32_LIMIT);
      n := x % 1000;
      s := DecimalText(x % 1000);
    }

    /** `get_float`: an integer draw in `[0, 99)` written as hundredths. */
    method GetFloat() returns (s: string, ghost a: Hundredths)
      modifies rng
      ensures s == FloatText(a)
    {
      var x := rng.Draw(0, 99);
      a := x;
      s := FloatText(x);
    }

    /** `get_bool`. */
    method GetBool() returns (s: string, ghost b: bool)
      modifies rng
      ensures s == BoolText(b)
    {
      var x := rng.Draw(0, 2);
      b := x == 1;
      s := BoolText(x == 1);
    }

    /** `get_time`: the clock's reading; the random source is not touched. */
    method GetTime() returns (s: string)
      requires Valid()
      modifies clock
      ensures Valid()
      ensures IsTimestamp(s)
    {
      s := clock.TwoDaysAgo();
    }

    /** `get_json`: ten members `"key":v,` for v = 0..9, then the last comma
        popped and replaced by `}`. */
    method GetJson() returns (s: string, ghost keys: seq<string>, ghost popped: char)
      modifies rng
      ensures JsonKeysFit(keys)
      ensures popped == ','
      ensures s == JsonObject(keys)
    {
      s := "{";
      keys := [];
      for v := 0 to 10
        invariant |keys| == v
        invariant forall i :: 0 <= i < v ==> |keys[i]| < 3 && FromCharset(keys[i])
        invariant s == BeforePop(keys)
      {
        var key := GetText(3);
        s := s + "\"" + key + "\":" + DecimalText(v) + ",";
        BeforePopSnoc(keys, key);
        keys := keys + [key];
      }
      PopYieldsObject(keys);
      popped := ' ';
      if |s| > 0 {
        popped := s[|s| - 1];
        s := s[..|s| - 1];
        s := s + "}";
      }
    }
  }
}
