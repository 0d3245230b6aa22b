/** The flat JSON objects `get_json` writes, and a recognizer for the object
    syntax of section 4 of RFC 8259 (restricted to string names without
    escape sequences, unsigned integer values and no insignificant
    whitespace) that reads them back. */
module JsonText {
  import opened Wrappers
  import opened Strings

  /** One name/value member of an object. */
  datatype Member = Member(key: string, value: nat)

  /** `"key":value`, as `format!("\"{}\":{}", key, v)` writes it. */
  function MemberText(m: Member): string
  {
    "\"" + m.key + "\":" + DecimalText(m.value)
  }

  function MemberTexts(ms: seq<Member>): (r: seq<string>)
    ensures |r| == |ms|
  {
    seq(|ms|, i requires 0 <= i < |ms| => MemberText(ms[i]))
  }

  /** The members `get_json` pairs its keys with: the i-th key gets value i. */
  function Indexed(keys: seq<string>): (ms: seq<Member>)
    ensures |ms| == |keys|
  {
    seq(|keys|, i requires 0 <= i < |keys| => Member(keys[i], i))
  }

  function ObjectText(ms: seq<Member>): string
  {
    "{" + Join(MemberTexts(ms), ',') + "}"
  }

  /** The object `get_json` returns for the keys it drew. */
  function JsonObject(keys: seq<string>): string
  {
    ObjectText(Indexed(keys))
  }

  /** What `get_json` holds just before its `pop`: every member followed by a comma. */
  function BeforePop(keys: seq<string>): string
  {
    "{" + Terminated(MemberTexts(Indexed(keys)), ',')
  }

  /** One more loop iteration appends the next member and a comma. */
  lemma BeforePopSnoc(keys: seq<string>, key: string)
    ensures BeforePop(keys + [key]) == BeforePop(keys) + MemberText(Member(key, |keys|)) + ","
  {
    var ms := MemberTexts(Indexed(keys));
    assert MemberTexts(Indexed(keys + [key])) == ms + [MemberText(Member(key, |keys|))];
    SnocUnfolds(ms, MemberText(Member(key, |keys|)), ',');
  }

  /** Once at least one member was written, the `pop` removes a comma and
      pushing `}` closes the object with no trailing comma. */
  lemma PopYieldsObject(keys: seq<string>)
    requires |keys| > 0
    ensures var s := BeforePop(keys);
      |s| > 1 && s[|s| - 1] == ',' && s[..|s| - 1] + "}" == JsonObject(keys)
  {
    var ms := MemberTexts(Indexed(keys));
    var s := BeforePop(keys);
    assert s == "{" + Terminated(ms[..|ms| - 1], ',') + ms[|ms| - 1] + [','];
    assert s[..|s| - 1] == "{" + Join(ms, ',');
  }

  // ---------------------------------------------------------------------------
  // Recognizer

  /** A character that may stand unescaped inside a JSON string (RFC 8259 section 7). */
  predicate IsUnescaped(c: char) {
    c >= ' ' && c != '"' && c != '\\'
  }

  predicate AllUnescaped(s: string) {
    forall i :: 0 <= i < |s| ==> IsUnescaped(s[i])
  }

  /** An integer in JSON number syntax (RFC 8259 section 6): digits, no leading zero. */
  predicate IsJsonInt(d: string) {
    |d| >= 1 && AllDigits(d) && (d[0] == '0' ==> |d| == 1)
  }

  /** The index of the first `"` at or after `i`, or `|s|` when there is none. */
  function QuoteFrom(s: string, i: nat): (j: nat)
    requires i <= |s|
    ensures i <= j <= |s|
    ensures forall m :: i <= m < j ==> s[m] != '"'
    ensures j < |s| ==> s[j] == '"'
    decreases |s| - i
  {
    if i == |s| || s[i] == '"' then i else QuoteFrom(s, i + 1)
  }

  /** The end of the run of digits that starts at `i`. */
  function DigitsFrom(s: string, i: nat): (j: nat)
    requires i <= |s|
    ensures i <= j <= |s|
    ensures forall m :: i <= m < j ==> IsDigit(s[m])
    ensures j < |s| ==> !IsDigit(s[j])
    decreases |s| - i
  {
    if i == |s| || !IsDigit(s[i]) then i else DigitsFrom(s, i + 1)
  }

  /** Reads one `"name":int` member off the front of `s`. */
  function ParseMember(s: string): (r: Option<(Member, string)>)
    ensures r.Some? ==> |r.value.1| < |s|
  {
    if |s| == 0 || s[0] != '"' then None
    else
      var j := QuoteFrom(s, 1);
      if j + 1 >= |s| || s[j + 1] != ':' || !AllUnescaped(s[1..j]) then None
      else
        var k := DigitsFrom(s, j + 2);
        var digits := s[j + 2..k];
        assert AllDigits(digits);
        if !IsJsonInt(digits) then None
        else Some((Member(s[1..j], DecimalValue(digits)), s[k..]))
  }

  /** Reads a non-empty comma-separated list of members that covers all of `s`. */
  function ParseMembers(s: string): Option<seq<Member>>
    decreases |s|
  {
    match ParseMember(s)
    case None => None
    case Some((m, rest)) =>
      if rest == "" then Some([m])
      else if rest[0] != ',' then None
      else
        match ParseMembers(rest[1..])
        case None => None
        case Some(ms) => Some([m] + ms)
  }

  /** Reads a whole object: `{}` or `{` members `}`. */
  function ParseObject(s: string): Option<seq<Member>>
  {
    if |s| < 2 || s[0] != '{' || s[|s| - 1] != '}' then None
    else if |s| == 2 then Some([])
    else ParseMembers(s[1..|s| - 1])
  }

  // ---------------------------------------------------------------------------
  // Round trip

  /** Keys whose characters all come from the text alphabet. */
  predicate PlainKeys(ms: seq<Member>) {
    forall i :: 0 <= i < |ms| ==> FromCharset(ms[i].key)
  }

  /** Alphabet characters may stand unescaped in a JSON string. */
  lemma PlainKeyIsUnescaped(key: string)
    requires FromCharset(key)
    ensures AllUnescaped(key)
  {
  }

  lemma QuoteFromAt(s: string, i: nat, j: nat)
    requires i <= j < |s| && s[j] == '"'
    requires forall m :: i <= m < j ==> s[m] != '"'
    ensures QuoteFrom(s, i) == j
  {
  }

  lemma DigitsFromAt(s: string, i: nat, j: nat)
    requires i <= j <= |s| && (j < |s| ==> !IsDigit(s[j]))
    requires forall m :: i <= m < j ==> IsDigit(s[m])
    ensures DigitsFrom(s, i) == j
  {
  }

  /** Where the parts of a member text sit. */
  lemma MemberLayout(m: Member, rest: string)
    ensures var s, L, d := MemberText(m) + rest, |m.key|, DecimalText(m.value);
      && |s| == L + 3 + |d| + |rest|
      && s[0] == '"' && s[1..L + 1] == m.key && s[L + 1] == '"' && s[L + 2] == ':'
      && s[L + 3..L + 3 + |d|] == d && s[L + 3 + |d|..] == rest
  {
  }

  lemma ParseMemberAt(s: string, j: nat, k: nat)
    requires |s| > 0 && s[0] == '"' && 1 <= j && j + 1 < |s| && QuoteFrom(s, 1) == j && s[j + 1] == ':'
    requires AllUnescaped(s[1..j])
    requires j + 2 <= k <= |s| && DigitsFrom(s, j + 2) == k && IsJsonInt(s[j + 2..k])
    ensures ParseMember(s) == Some((Member(s[1..j], DecimalValue(s[j + 2..k])), s[k..]))
  {
  }

  lemma ParseMemberText(m: Member, rest: string)
    requires FromCharset(m.key)
    requires rest == "" || rest[0] == ','
    ensures ParseMember(MemberText(m) + rest) == Some((m, rest))
  {
    var s, L, d := MemberText(m) + rest, |m.key|, DecimalText(m.value);
    var j, k := L + 1, L + 3 + |d|;
    MemberLayout(m, rest);
    assert AllUnescaped(s[1..j]) by {
      PlainKeyIsUnescaped(m.key);
    }
    assert QuoteFrom(s, 1) == j by {
      assert forall t :: 1 <= t < j ==> s[t] == s[1..j][t - 1];
      QuoteFromAt(s, 1, j);
    }
    assert DigitsFrom(s, j + 2) == k by {
      assert forall t :: j + 2 <= t < k ==> s[t] == s[j + 2..k][t - j - 2];
      assert k < |s| ==> s[k] == rest[0];
      DigitsFromAt(s, j + 2, k);
    }
    assert IsJsonInt(s[j + 2..k]) && DecimalValue(s[j + 2..k]) == m.value by {
      DecimalRoundTrip(m.value);
    }
    ParseMemberAt(s, j, k);
  }

  /** One member and a comma in front of a readable list reads as one more member. */
  lemma ParseMembersCons(m: Member, tail: string, ms: seq<Member>)
    requires FromCharset(m.key)
    requires ParseMembers(tail) == Some(ms)
    ensures ParseMembers(MemberText(m) + ([','] + tail)) == Some([m] + ms)
  {
    var rest := [','] + tail;
    ParseMemberText(m, rest);
    assert rest[1..] == tail;
  }

  lemma ParseSingleMember(m: Member)
    requires FromCharset(m.key)
    ensures ParseMembers(Join(MemberTexts([m]), ',')) == Some([m])
  {
    assert Join(MemberTexts([m]), ',') == MemberText(m) + "";
    ParseMemberText(m, "");
  }

  /** The members' join read from the left: the first text, a comma, the rest. */
  lemma MemberTextsCons(ms: seq<Member>)
    requires |ms| >= 2
    ensures Join(MemberTexts(ms), ',') == MemberText(ms[0]) + ([','] + Join(MemberTexts(ms[1..]), ','))
  {
    assert MemberTexts(ms) == [MemberText(ms[0])] + MemberTexts(ms[1..]);
    JoinCons(MemberText(ms[0]), MemberTexts(ms[1..]), ',');
  }

  lemma {:induction false} ParseMembersOfJoin(ms: seq<Member>)
    requires |ms| >= 1 && PlainKeys(ms)
    ensures ParseMembers(Join(MemberTexts(ms), ',')) == Some(ms)
    decreases |ms|
  {
    if |ms| == 1 {
      assert ms == [ms[0]];
      ParseSingleMember(ms[0]);
    } else {
      MemberTextsCons(ms);
      ParseMembersOfJoin(ms[1..]);
      ParseMembersCons(ms[0], Join(MemberTexts(ms[1..]), ','), ms[1..]);
      assert [ms[0]] + ms[1..] == ms;
    }
  }

  /** Reading an object text back gives exactly its members, in order. */
  lemma ObjectRoundTrip(ms: seq<Member>)
    requires PlainKeys(ms)
    ensures ParseObject(ObjectText(ms)) == Some(ms)
  {
    var s := ObjectText(ms);
    if ms != [] {
      ParseMembersOfJoin(ms);
      assert s[1..|s| - 1] == Join(MemberTexts(ms), ',');
      assert |Join(MemberTexts(ms), ',')| > 0;
    }
  }

  /** `get_json`'s object has one member per key, in order, the i-th with value i;
      keys may be empty or repeated. */
  lemma JsonObjectRoundTrip(keys: seq<string>)
    requires forall i :: 0 <= i < |keys| ==> FromCharset(keys[i])
    ensures ParseObject(JsonObject(keys)) == Some(Indexed(keys))
  {
    ObjectRoundTrip(Indexed(keys));
  }

  /** The members between the braces contain no character outside the
      alphabet, the digits and `"`, `:` and `,`. */
  lemma MembersAvoid(keys: seq<string>, bad: set<char>)
    requires forall i :: 0 <= i < |keys| ==> FromCharset(keys[i])
    requires forall c :: c in bad ==> !IsAlnum(c)
    requires ',' !in bad && '"' !in bad && ':' !in bad
    ensures Avoids(Join(MemberTexts(Indexed(keys)), ','), bad)
  {
    var ms := Indexed(keys);
    forall i | 0 <= i < |ms|
      ensures Avoids(MemberTexts(ms)[i], bad)
    {
      CharsetAvoids(keys[i], bad);
      var d := DecimalText(i);
      assert Avoids(d, bad);
      assert MemberTexts(ms)[i] == "\"" + keys[i] + "\":" + d;
    }
    AvoidsJoin(MemberTexts(ms), ',', bad);
  }

  /** The object text contains none of the SQL punctuation the statement builder relies on. */
  lemma JsonObjectAvoids(keys: seq<string>, bad: set<char>)
    requires forall i :: 0 <= i < |keys| ==> FromCharset(keys[i])
    requires forall c :: c in bad ==> !IsAlnum(c)
    requires '{' !in bad && '}' !in bad && ',' !in bad && '"' !in bad && ':' !in bad
    ensures Avoids(JsonObject(keys), bad)
  {
    MembersAvoid(keys, bad);
  }
}
