/** The names of measured nodes, and the expert numbers inside them. */
module NodeNames {
  import opened Common

  // ------------------------------------------------------------------- Decimal digits

  predicate IsDigit(c: char) {
    '0' <= c <= '9'
  }

  predicate AllDigits(s: string) {
    forall i :: 0 <= i < |s| ==> IsDigit(s[i])
  }

  function Digit(n: nat): (c: char)
    requires n < 10
    ensures IsDigit(c)
  {
    "0123456789"[n]
  }

  function DigitValue(c: char): nat
    requires IsDigit(c)
  {
    c as int - '0' as int
  }

  function Str(n: nat): (s: string)
    ensures |s| > 0 && AllDigits(s)
  {
    if n < 10 then [Digit(n)] else Str(n / 10) + [Digit(n % 10)]
  }

  function ParseNat(s: string): nat
    requires AllDigits(s)
  {
    if s == "" then 0 else ParseNat(s[..|s| - 1]) * 10 + DigitValue(s[|s| - 1])
  }

  lemma {:induction false} ParseStr(n: nat)
    ensures ParseNat(Str(n)) == n
  {
    if n < 10 {
      assert [Digit(n)][..0] == "";
    } else {
      ParseStr(n / 10);
      var s := Str(n / 10) + [Digit(n % 10)];
      assert s[..|s| - 1] == Str(n / 10);
    }
  }

  // ------------------------------------------------------------------- Parts of names

  /** Where the last dot-separated part begins. */
  function LastPart(name: string): (p: nat)
    ensures p <= |name|
    ensures forall j :: p <= j < |name| ==> name[j] != '.'
    ensures p > 0 ==> name[p - 1] == '.'
  {
    if name == "" || name[|name| - 1] == '.' then |name| else LastPart(name[..|name| - 1])
  }

  /** None stands for the failed assertion that the last part is a number. */
  function GetExpertId(name: string): Option<nat> {
    var last := name[LastPart(name)..];
    if last != "" && AllDigits(last) then Some(ParseNat(last)) else None
  }

  function GetExpertPrefix(name: string): string {
    var p := LastPart(name);
    if p == 0 then "" else name[..p - 1]
  }

  /** The name of expert n under a prefix. */
  function ExpertName(prefix: string, n: nat): string {
    prefix + "." + Str(n)
  }

  lemma NameParts(prefix: string, digits: string)
    requires digits != "" && AllDigits(digits)
    ensures GetExpertId(prefix + "." + digits) == Some(ParseNat(digits))
    ensures GetExpertPrefix(prefix + "." + digits) == prefix
  {
    var name := prefix + "." + digits;
    assert name[|prefix|] == '.' && name[|prefix| + 1..] == digits;
    assert forall j :: |prefix| + 1 <= j < |name| ==> name[j] == digits[j - |prefix| - 1];
    assert LastPart(name) == |prefix| + 1;
  }

  /** Prefix and number can be read back from a name. */
  lemma ExpertNameParts(prefix: string, n: nat)
    ensures GetExpertId(ExpertName(prefix, n)) == Some(n)
    ensures GetExpertPrefix(ExpertName(prefix, n)) == prefix
  {
    NameParts(prefix, Str(n));
    ParseStr(n);
  }

  // ---------------------------------------------------------------- Kinds of nodes

  function LowerChar(c: char): char {
    if 'A' <= c <= 'Z' then (c as int + 32) as char else c
  }

  function Lower(s: string): (r: string)
    ensures |r| == |s| && forall i :: 0 <= i < |s| ==> r[i] == LowerChar(s[i])
  {
    seq(|s|, i requires 0 <= i < |s| => LowerChar(s[i]))
  }

  predicate Contains(s: string, sub: string) {
    exists p :: 0 <= p <= |s| && OccursAt(s, sub, p)
  }

  predicate MentionsMoe(name: string) {
    Contains(Lower(name), "moe")
  }

  predicate MentionsList(name: string) {
    Contains(name, ".w13_list") || Contains(name, ".w2_list")
  }

  predicate IsFusedMoeOp(name: string) {
    MentionsMoe(name) && !MentionsList(name)
  }

  predicate IsMoeExperts(name: string) {
    MentionsMoe(name) && MentionsList(name)
  }

  lemma ContainsExtends(s: string, t: string, sub: string)
    ensures Contains(s, sub) ==> Contains(s + t, sub)
  {
    if Contains(s, sub) {
      var p :| 0 <= p <= |s| && OccursAt(s, sub, p);
      assert (s + t)[p..p + |sub|] == s[p..p + |sub|];
      assert OccursAt(s + t, sub, p);
    }
  }

  /** A text ending in a letter that does not occur in t is found in s + t only if it is
      found in s. */
  lemma ContainsShrinks(s: string, t: string, sub: string)
    requires sub != "" && sub[|sub| - 1] !in t
    ensures Contains(s + t, sub) ==> Contains(s, sub)
  {
    if Contains(s + t, sub) {
      var p :| 0 <= p <= |s + t| && OccursAt(s + t, sub, p);
      var last := p + |sub| - 1;
      assert (s + t)[last] == (s + t)[p..p + |sub|][|sub| - 1];
      assert forall i :: |s| <= i < |s + t| ==> (s + t)[i] in t;
      assert (s + t)[p..p + |sub|] == s[p..p + |sub|];
      assert OccursAt(s, sub, p);
    }
  }

  lemma LowerAppend(s: string, t: string)
    ensures Lower(s + t) == Lower(s) + Lower(t)
  {
  }

  /** A name that mentions "moe", in letters of either case, denotes either the fused
      operation or an expert, and any other name neither; experts are those in a list. */
  lemma KindsByName(name: string)
    ensures IsFusedMoeOp(name) || IsMoeExperts(name) <==> exists p :: 0 <= p <= |name| && MoeAt(name, p)
    ensures !(IsFusedMoeOp(name) && IsMoeExperts(name))
    ensures IsMoeExperts(name) ==>
      exists p :: 0 <= p <= |name| && (OccursAt(name, ".w13_list", p) || OccursAt(name, ".w2_list", p))
  {
    hide MoeAt;
    forall p | 0 <= p <= |name| ensures MoeAt(name, p) <==> OccursAt(Lower(name), "moe", p) { MoeIsLower(name, p); }
  }

  predicate MoeAt(name: string, p: nat) {
    && p + 3 <= |name| && (name[p] == 'm' || name[p] == 'M') && (name[p + 1] == 'o' || name[p + 1] == 'O')
    && (name[p + 2] == 'e' || name[p + 2] == 'E')
  }

  lemma MoeIsLower(name: string, p: nat)
    ensures MoeAt(name, p) <==> OccursAt(Lower(name), "moe", p)
  {
    if p + 3 <= |name| {
      var part := Lower(name)[p..p + 3];
      assert part == [LowerChar(name[p]), LowerChar(name[p + 1]), LowerChar(name[p + 2])];
    }
  }

  /** Both kinds of lists below an operation hold experts, and the operation itself is fused
      unless it lies in such a list. */
  lemma ListsOfOperation(operation: string, n: nat)
    requires MentionsMoe(operation)
    ensures IsMoeExperts(ExpertName(operation + ".w13_list", n)) && IsMoeExperts(ExpertName(operation + ".w2_list", n))
    ensures IsFusedMoeOp(operation) <==> !Contains(operation, ".w13_list") && !Contains(operation, ".w2_list")
  {
    InList(operation, ".w13_list", n);
    InList(operation, ".w2_list", n);
  }

  lemma InList(operation: string, list: string, n: nat)
    requires MentionsMoe(operation) && (list == ".w13_list" || list == ".w2_list")
    ensures IsMoeExperts(ExpertName(operation + list, n))
  {
    var name, tail := ExpertName(operation + list, n), "." + Str(n);
    assert OccursAt(operation + list, list, |operation|);
    ContainsExtends(operation + list, tail, list);
    LowerAppend(operation, list);
    ContainsExtends(Lower(operation), Lower(list), "moe");
    LowerAppend(operation + list, tail);
    ContainsExtends(Lower(operation + list), Lower(tail), "moe");
    assert name == operation + list + tail;
  }

  predicate NumberTail(t: string) {
    forall i :: 0 <= i < |t| ==> t[i] == '.' || IsDigit(t[i])
  }

  lemma KindIgnoresTail(prefix: string, tail: string)
    requires NumberTail(tail)
    ensures IsMoeExperts(prefix + tail) <==> IsMoeExperts(prefix)
  {
    LowerAppend(prefix, tail);
    assert Lower(tail) == tail;
    ContainsExtends(Lower(prefix), tail, "moe");
    ContainsShrinks(Lower(prefix), tail, "moe");
    ContainsExtends(prefix, tail, ".w13_list");
    ContainsShrinks(prefix, tail, ".w13_list");
    ContainsExtends(prefix, tail, ".w2_list");
    ContainsShrinks(prefix, tail, ".w2_list");
  }

  lemma NumberIsTail(name: string) returns (tail: string)
    requires GetExpertId(name).Some?
    ensures name == GetExpertPrefix(name) + tail && NumberTail(tail)
  {
    hide ParseNat;
    var p := LastPart(name);
    var last := name[p..];
    tail := name[|GetExpertPrefix(name)|..];
    assert forall i :: 0 <= i < |last| ==> IsDigit(last[i]);
    assert p > 0 ==> tail == "." + last;
  }

  /** Renumbering an expert does not change what kind of node its name denotes. */
  lemma KindIgnoresNumber(name: string, n: nat)
    requires GetExpertId(name).Some?
    ensures IsMoeExperts(ExpertName(GetExpertPrefix(name), n)) <==> IsMoeExperts(name)
  {
    hide IsMoeExperts, GetExpertId, GetExpertPrefix;
    var prefix := GetExpertPrefix(name);
    var oldTail := NumberIsTail(name);
    var newTail := "." + Str(n);
    assert ExpertName(prefix, n) == prefix + newTail;
    KindIgnoresTail(prefix, oldTail);
    KindIgnoresTail(prefix, newTail);
  }
}
