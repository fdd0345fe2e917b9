/** Decimal text of numbers, as std::to_string writes it and std::stoi reads it. */
module Decimals {
  import opened Results

  type Digit = c: char | '0' <= c <= '9' witness '0'

  const INT_MAX: nat := 0x7fff_ffff

  function ToString(n: nat): (s: seq<Digit>)
    ensures s != []
  {
    if n < 10 then ['0' + n as char] else ToString(n / 10) + ['0' + (n % 10) as char]
  }

  // The value of the digits a text starts with; anything after them is ignored. No digit and a
  // value beyond an int are errors.
  function Stoi(s: string): Option<nat> {
    var d := Digits(s);
    if d == [] || Value(d) > INT_MAX then None else Some(Value(d))
  }

  function Digits(s: string): (d: seq<Digit>) {
    if s == "" || !('0' <= s[0] <= '9') then [] else [s[0]] + Digits(s[1..])
  }

  function Value(d: seq<Digit>): nat {
    if d == [] then 0 else 10 * Value(d[..|d|-1]) + (d[|d|-1] - '0') as nat
  }

  lemma {:induction false} DigitsOfDigits(d: seq<Digit>)
    ensures Digits(d) == d
  {
    if d != [] {
      DigitsOfDigits(d[1..]);
    }
  }

  lemma {:induction false} ValueOfToString(n: nat)
    ensures Value(ToString(n)) == n
  {
    if n >= 10 {
      ValueOfToString(n / 10);
      var s := ToString(n);
      assert s[..|s|-1] == ToString(n / 10);
    } else {
      assert ToString(n)[..0] == [];
    }
  }

  // n divided by ten k times.
  function Tenth(n: nat, k: nat): nat
    decreases k
  {
    if k == 0 then n else Tenth(n / 10, k - 1)
  }

  // The k-th character from the right is the digit of that place.
  lemma {:induction false} DigitAtPlace(n: nat, k: nat)
    requires k < |ToString(n)|
    ensures ToString(n)[|ToString(n)| - 1 - k] == '0' + (Tenth(n, k) % 10) as char
    decreases k
  {
    if k > 0 {
      DigitAtPlace(n / 10, k - 1);
    }
  }

  // No digit is missing and there is no leading zero.
  lemma {:induction false} AllDigits(n: nat)
    ensures Tenth(n, |ToString(n)|) == 0
    ensures |ToString(n)| > 1 ==> ToString(n)[0] != '0'
    ensures n > 0 ==> ToString(n)[0] != '0'
  {
    if n >= 10 {
      AllDigits(n / 10);
    } else {
      assert Tenth(n, 1) == Tenth(n / 10, 0);
    }
  }

  // What was written is read back, as long as it is an int.
  lemma StoiToString(n: nat)
    ensures Stoi(ToString(n)) == if n <= INT_MAX then Some(n) else None
  {
    ValueOfToString(n);
    DigitsOfDigits(ToString(n));
  }

  lemma ToStringInjective(m: nat, n: nat)
    requires ToString(m) == ToString(n)
    ensures m == n
  {
    ValueOfToString(m);
    ValueOfToString(n);
  }
}

/** The topic on which the replies to one request arrive (src/AITTImpl.cc:296,336). */
module ReplyTopics {
  import opened Decimals

  const RESPONSE_POSTFIX := "_AittRe_"

  // The counter is an unsigned short.
  const COUNTER_SIZE: nat := 0x1_0000

  function ReplyTopic(topic: string, id: nat): string {
    topic + RESPONSE_POSTFIX + ToString(id)
  }

  // The counter after `k` more requests.
  function Advance(id: nat, k: nat): nat {
    (id + k) % COUNTER_SIZE
  }

  // The last underscore fixes where the number begins.
  lemma ReplyTopicInjective(t: string, id: nat, t': string, id': nat)
    requires ReplyTopic(t, id) == ReplyTopic(t', id')
    ensures t == t' && id == id'
  {
    assert ReplyTopic(t, id) == (t + "_AittRe") + "_" + ToString(id);
    assert ReplyTopic(t', id') == (t' + "_AittRe") + "_" + ToString(id');
    SplitAtLastUnderscore(t + "_AittRe", ToString(id), t' + "_AittRe", ToString(id'));
    ToStringInjective(id, id');
    assert (t + "_AittRe")[..|t|] == t && (t' + "_AittRe")[..|t'|] == t';
  }

  lemma SplitAtLastUnderscore(p: string, d: string, p': string, d': string)
    requires p + "_" + d == p' + "_" + d'
    requires '_' !in d && '_' !in d'
    ensures p == p' && d == d'
  {
    var whole := p + "_" + d;
    LastUnderscore(p, d);
    LastUnderscore(p', d');
    assert whole[..|p|] == p && whole[..|p'|] == p';
    assert whole[|p| + 1..] == d && whole[|p'| + 1..] == d';
  }

  lemma LastUnderscore(p: string, d: string)
    requires '_' !in d
    ensures var whole := p + "_" + d;
      whole[|p|] == '_' && forall k :: |p| < k < |whole| ==> whole[k] != '_'
  {
    var whole := p + "_" + d;
    forall k | |p| < k < |whole| ensures whole[k] != '_' {
      assert whole[k] == d[k - |p| - 1];
    }
  }

  // Two requests of one instance share a reply topic exactly when they ask on the same topic and
  // the counter has wrapped around fully between them.
  lemma ReplyTopicsDiffer(t: string, t': string, start: nat, i: nat, j: nat)
    ensures ReplyTopic(t, Advance(start, i)) == ReplyTopic(t', Advance(start, j))
            <==> t == t' && i % COUNTER_SIZE == j % COUNTER_SIZE
  {
    var a, b := Advance(start, i), Advance(start, j);
    if a == b {
      var q, q' := (start + i) / COUNTER_SIZE, (start + j) / COUNTER_SIZE;
      assert i - j == COUNTER_SIZE * (q - q');
      SameRemainder(i, j, q - q');
    }
    if i % COUNTER_SIZE == j % COUNTER_SIZE {
      var q, q' := i / COUNTER_SIZE, j / COUNTER_SIZE;
      SameRemainder(start + i, start + j, q - q');
    }
    if ReplyTopic(t, a) == ReplyTopic(t', b) {
      ReplyTopicInjective(t, a, t', b);
    }
  }

  lemma SameRemainder(m: nat, n: nat, q: int)
    requires m - n == COUNTER_SIZE * q
    ensures m % COUNTER_SIZE == n % COUNTER_SIZE
  {
    var r := n % COUNTER_SIZE;
    assert m == COUNTER_SIZE * (n / COUNTER_SIZE + q) + r;
  }

  // Any 65536 consecutive requests have pairwise different reply topics.
  lemma ConsecutiveDiffer(topics: seq<string>, start: nat, i: nat, j: nat)
    requires i < j < |topics| <= COUNTER_SIZE
    ensures ReplyTopic(topics[i], Advance(start, i)) != ReplyTopic(topics[j], Advance(start, j))
  {
    ReplyTopicsDiffer(topics[i], topics[j], start, i, j);
  }
}
