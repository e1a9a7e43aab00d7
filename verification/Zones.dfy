/** The zone tree: parents, label counts and ancestors of a canonical name. */
module Zones {
  import opened Dns

  /** The tail after the first dot; a name without one has no tail. */
  function AfterFirstDot(s: string): (r: string)
    ensures |r| <= |s|
    ensures s != "" ==> |r| < |s|
    ensures r != "" && EndsWithDot(s) ==> EndsWithDot(r)
  {
    if s == "" then "" else if s[0] == '.' then s[1..] else AfterFirstDot(s[1..])
  }

  /** "a.b.c." -> "b.c.", "c." -> ".", "." -> ".". */
  function Parent(zone: Name): (r: Name)
    requires EndsWithDot(zone)
    ensures EndsWithDot(r)
    ensures zone != ROOT ==> |r| < |zone|
  {
    if zone == ROOT then ROOT
    else
      var rest := AfterFirstDot(zone);
      if rest == "" then ROOT else rest
  }

  /** The number of delegations between a zone and the root. */
  function Labels(zone: Name): nat
    requires EndsWithDot(zone)
    decreases |zone|
  {
    if zone == ROOT then 0 else 1 + Labels(Parent(zone))
  }

  /** The k-th ancestor; the root is its own parent. */
  function Up(zone: Name, k: nat): (r: Name)
    requires EndsWithDot(zone)
    ensures EndsWithDot(r)
    decreases k
  {
    if k == 0 then zone else Parent(Up(zone, k - 1))
  }

  lemma {:induction false} ParentOfCanonical(zone: Name)
    requires Canonical(zone) == zone
    ensures Canonical(Parent(zone)) == Parent(zone)
  {
    if zone != ROOT {
      LowerTail(zone);
    }
  }

  lemma {:induction false} LowerTail(s: string)
    requires Lower(s) == s
    ensures Lower(AfterFirstDot(s)) == AfterFirstDot(s)
  {
    if s != "" {
      assert Lower(s[1..]) == s[1..];
      if s[0] != '.' {
        LowerTail(s[1..]);
      }
    }
  }

  lemma {:induction false} UpLength(zone: Name, k: nat)
    requires EndsWithDot(zone)
    ensures |Up(zone, k)| <= |zone|
    ensures k > 0 && zone != ROOT ==> |Up(zone, k)| < |zone|
  {
    if k > 0 {
      UpLength(zone, k - 1);
    }
  }

  /** Above the root there is only the root. */
  lemma {:induction false} UpFromRoot(zone: Name, k: nat, j: nat)
    requires EndsWithDot(zone) && Up(zone, k) == ROOT && k <= j
    ensures Up(zone, j) == ROOT
  {
    if k < j {
      UpFromRoot(zone, k, j - 1);
    }
  }

  /** The parent of a zone is what is left without its first label, and the root above a single label. */
  lemma {:induction false} ParentIs(head: string, rest: string)
    requires '.' !in head && EndsWithDot(rest)
    ensures Parent(head + "." + rest) == rest
    ensures head != "" ==> Parent(head + ".") == ROOT
  {
    CutFirst(head, rest);
    CutFirst(head, "");
    assert head + "." + "" == head + ".";
  }

  lemma {:induction false} CutFirst(head: string, rest: string)
    requires '.' !in head
    ensures AfterFirstDot(head + "." + rest) == rest
  {
    var s := head + "." + rest;
    if head == "" {
      assert s == "." + rest && s[1..] == rest;
    } else {
      assert s[0] == head[0] && head[0] in head;
      assert s[1..] == head[1..] + "." + rest;
      CutFirst(head[1..], rest);
    }
  }
}
