/** Allowlist and blocklist: loading, suffix matching, and the shadowing report. */
module Lists {
  import opened Dns

  // ---- dotted names

  function FirstDot(s: string): (p: nat)
    requires '.' in s
    ensures p < |s| && s[p] == '.' && '.' !in s[..p]
  {
    if s[0] == '.' then 0 else FirstDot(s[1..]) + 1
  }

  /** `strings.Split(s, ".")` */
  function Split(s: string): (r: seq<string>)
    ensures r != []
    decreases |s|
  {
    if '.' !in s then [s] else var p := FirstDot(s); [s[..p]] + Split(s[p + 1..])
  }

  function Join(parts: seq<string>): string
    requires parts != []
  {
    if |parts| == 1 then parts[0] else parts[0] + "." + Join(parts[1..])
  }

  /** `e` is what follows one of the dots of `n`: n is a proper subdomain of e. */
  ghost predicate Below(n: string, e: string) {
    exists i :: 0 <= i < |n| && n[i] == '.' && n[i + 1..] == e
  }

  lemma BelowTransitive(a: string, b: string, c: string)
    requires Below(a, b) && Below(b, c)
    ensures Below(a, c)
  {
    var i :| 0 <= i < |a| && a[i] == '.' && a[i + 1..] == b;
    var j :| 0 <= j < |b| && b[j] == '.' && b[j + 1..] == c;
    assert a[i + 1 + j] == '.' && a[i + 1 + j + 1..] == c;
  }

  lemma {:induction false} JoinSplit(s: string)
    ensures Join(Split(s)) == s
    decreases |s|
  {
    if '.' in s {
      var p := FirstDot(s);
      JoinSplit(s[p + 1..]);
      assert Split(s)[1..] == Split(s[p + 1..]);
      assert s == s[..p] + "." + s[p + 1..];
    }
  }

  /** Splitting peels the part before the first dot. */
  lemma SplitStep(s: string) returns (rest: string)
    requires '.' in s
    ensures |rest| < |s| && |Split(s)| == 1 + |Split(rest)|
    ensures Split(s)[0] == s[..|s| - |rest| - 1] && '.' !in Split(s)[0]
    ensures s == Split(s)[0] + "." + rest
    ensures forall i :: 1 <= i <= |Split(s)| ==> Split(s)[i..] == Split(rest)[i - 1..]
  {
    var p := FirstDot(s);
    rest := s[p + 1..];
    assert s == s[..p] + "." + rest;
    assert Split(s) == [s[..p]] + Split(rest);
  }

  /** Every suffix the matching loop builds follows a dot of the name ... */
  lemma {:induction false} SuffixIsBelow(s: string, i: nat)
    requires 1 <= i < |Split(s)|
    ensures Below(s, Join(Split(s)[i..]))
    decreases |s|
  {
    assert '.' in s;
    var rest := SplitStep(s);
    hide Split, Join;
    assert Below(s, rest) by {
      var p := |s| - |rest| - 1;
      assert s[p] == '.' && s[p + 1..] == rest;
    }
    if i == 1 {
      assert Split(rest)[0..] == Split(rest);
      JoinSplit(rest);
    } else {
      SuffixIsBelow(rest, i - 1);
      BelowTransitive(s, rest, Join(Split(rest)[i - 1..]));
    }
  }

  /** ... and every name above it is one of those suffixes. */
  lemma {:induction false} BelowIsSuffix(s: string, e: string)
    requires Below(s, e)
    ensures exists i :: 1 <= i < |Split(s)| && Join(Split(s)[i..]) == e
    decreases |s|
  {
    hide Split, Join;
    var j :| 0 <= j < |s| && s[j] == '.' && s[j + 1..] == e;
    var rest := SplitStep(s);
    var p := |s| - |rest| - 1;
    assert forall k :: 0 <= k < p ==> s[k] == Split(s)[0][k];
    if j == p {
      assert e == rest && Split(rest)[0..] == Split(rest);
      JoinSplit(rest);
      assert Join(Split(s)[1..]) == e;
    } else {
      assert rest[j - p - 1] == '.' && rest[j - p - 1 + 1..] == e;
      BelowIsSuffix(rest, e);
      var i :| 1 <= i < |Split(rest)| && Join(Split(rest)[i..]) == e;
      assert Join(Split(s)[i + 1..]) == e;
    }
  }

  function TrimDot(s: string): string {
    if EndsWithDot(s) then s[..|s| - 1] else s
  }

  /** Lower case, no trailing dot: the form list entries are kept in. */
  function Normalize(s: string): string {
    Lower(TrimDot(s))
  }

  predicate HasWildcard(s: string) {
    |s| >= 2 && s[0] == '*' && s[1] == '.'
  }

  // ---- suffix matching

  /** Equal to a bare entry, or below a bare or wildcard one. */
  ghost predicate Matched(domains: set<string>, wildcard: set<string>, n: string) {
    n in domains || exists e :: Below(n, e) && (e in domains || "*." + e in wildcard)
  }

  method MatchSuffixes(domains: set<string>, wildcard: set<string>, domain: string) returns (r: bool)
    ensures r || domain in domains <==> Matched(domains, wildcard, domain)
  {
    var parts := Split(domain);
    for i := 1 to |parts|
      invariant forall j :: 1 <= j < i ==> Join(parts[j..]) !in domains && "*." + Join(parts[j..]) !in wildcard
    {
      var suffix := Join(parts[i..]);
      if suffix in domains || "*." + suffix in wildcard {
        SuffixIsBelow(domain, i);
        return true;
      }
    }
    forall e | Below(domain, e) ensures e !in domains && "*." + e !in wildcard {
      BelowIsSuffix(domain, e);
    }
    return false;
  }

  // ---- entry validation

  predicate LabelChar(c: char, underscore: bool) {
    'a' <= c <= 'z' || 'A' <= c <= 'Z' || '0' <= c <= '9' || c == '-' || (underscore && c == '_')
  }

  /** 1 to 63 characters, hyphens only inside. */
  predicate LabelOk(l: string, underscore: bool) {
    && 1 <= |l| <= 63
    && (forall i :: 0 <= i < |l| ==> LabelChar(l[i], underscore))
    && l[0] != '-' && l[|l| - 1] != '-'
  }

  function StripWildcard(host: string): string {
    if HasWildcard(host) then host[2..] else host
  }

  predicate HostOk(host: string, underscore: bool) {
    host != "" && forall i :: 0 <= i < |Split(host)| ==> LabelOk(Split(host)[i], underscore)
  }

  predicate ValidBlockHost(host: string) {
    HostOk(StripWildcard(TrimDot(host)), true)
  }

  /** A single label would allow nearly everything and is refused. */
  predicate ValidAllowEntry(entry: string) {
    var host := StripWildcard(TrimDot(entry));
    '.' in host && HostOk(host, false)
  }

  /** No character outside hostnames, and already in normal form. */
  predicate CleanHost(s: string) {
    s != "" && '#' !in s && '=' !in s && '*' !in s && !EndsWithDot(s)
  }

  lemma {:induction false} ValidHostIsClean(s: string, underscore: bool)
    requires forall i :: 0 <= i < |Split(s)| ==> LabelOk(Split(s)[i], underscore)
    ensures CleanHost(s) && CleanHost(Lower(s))
    decreases |s|
  {
    if '.' in s {
      var rest := SplitStep(s);
      forall i | 0 <= i < |Split(rest)| ensures LabelOk(Split(rest)[i], underscore) {
        assert Split(rest)[i] == Split(s)[i + 1..][0] == Split(s)[i + 1];
      }
      ValidHostIsClean(rest, underscore);
      LabelIsClean(Split(s)[0], underscore);
      JoinIsClean(Split(s)[0], rest);
    } else {
      assert Split(s)[0] == s;
      LabelIsClean(s, underscore);
    }
    LowerIsClean(s);
  }

  lemma LabelIsClean(l: string, underscore: bool)
    requires LabelOk(l, underscore) && '.' !in l
    ensures CleanHost(l)
  {
  }

  lemma JoinIsClean(a: string, b: string)
    requires CleanHost(a) && CleanHost(b)
    ensures CleanHost(a + "." + b)
  {
  }

  lemma LowerIsClean(s: string)
    requires CleanHost(s)
    ensures CleanHost(Lower(s)) && Normalize(Lower(s)) == Lower(s)
  {
    var l := Lower(s);
    assert forall i :: 0 <= i < |s| ==> l[i] == LowerChar(s[i]) && s[i] in s;
    assert Lower(l) == l;
  }

  // ---- files

  /** A scanned line is its whitespace-separated fields; `broken` is a read error after the last line. */
  datatype File = File(lines: seq<seq<string>>, broken: bool)

  predicate IsComment(fields: seq<string>) {
    fields == [] || (fields[0] != "" && fields[0][0] == '#')
  }

  datatype Sets = Sets(domains: set<string>, wildcard: set<string>, exact: set<string>)

  const EMPTY: Sets := Sets({}, {}, {})

  function AddEntry(sets: Sets, entry: string): Sets {
    if HasWildcard(entry) then sets.(wildcard := sets.wildcard + {entry})
    else sets.(domains := sets.domains + {entry})
  }

  // ---- blocklist

  function AddHosts(sets: Sets, hosts: seq<string>): Sets {
    if hosts == [] then sets
    else
      var rest, h := AddHosts(sets, hosts[..|hosts| - 1]), hosts[|hosts| - 1];
      if ValidBlockHost(h) then AddEntry(rest, Normalize(h)) else rest
  }

  /** Hosts format, one domain, or nothing usable; invalid hosts are skipped one by one. */
  function AddBlockLine(isIP: string -> bool, sets: Sets, fields: seq<string>): Sets {
    if IsComment(fields) then sets
    else if isIP(fields[0]) then AddHosts(sets, fields[1..])
    else if |fields| == 1 then AddHosts(sets, fields)
    else sets
  }

  function AddBlockLines(isIP: string -> bool, sets: Sets, lines: seq<seq<string>>): Sets {
    if lines == [] then sets
    else AddBlockLine(isIP, AddBlockLines(isIP, sets, lines[..|lines| - 1]), lines[|lines| - 1])
  }

  /** Every readable file contributes; a file that breaks contributes the lines before the error. */
  function ReloadBlock(isIP: string -> bool, files: seq<Option<File>>): Sets {
    if files == [] then EMPTY
    else
      var rest, f := ReloadBlock(isIP, files[..|files| - 1]), files[|files| - 1];
      if f.Some? then AddBlockLines(isIP, rest, f.value.lines) else rest
  }

  /** What validation keeps out of a blocklist. */
  ghost predicate BlockClean(sets: Sets) {
    forall d :: d in sets.domains ==> '#' !in d
  }

  method ScanHosts(sets: Sets, hosts: seq<string>) returns (r: Sets)
    ensures r == AddHosts(sets, hosts)
  {
    r := sets;
    for i := 0 to |hosts|
      invariant r == AddHosts(sets, hosts[..i])
    {
      assert hosts[..i + 1][..i] == hosts[..i];
      if ValidBlockHost(hosts[i]) {
        r := AddEntry(r, Normalize(hosts[i]));
      }
    }
    assert hosts[..|hosts|] == hosts;
  }

  method ScanInto(isIP: string -> bool, sets: Sets, lines: seq<seq<string>>) returns (r: Sets)
    ensures r == AddBlockLines(isIP, sets, lines)
  {
    r := sets;
    for i := 0 to |lines|
      invariant r == AddBlockLines(isIP, sets, lines[..i])
    {
      assert lines[..i + 1][..i] == lines[..i];
      if IsComment(lines[i]) {
        continue;
      }
      if isIP(lines[i][0]) {
        r := ScanHosts(r, lines[i][1..]);
      } else if |lines[i]| == 1 {
        r := ScanHosts(r, lines[i]);
      }
    }
    assert lines[..|lines|] == lines;
  }

  class Blocklist {
    const enabled: bool
    var sets: Sets

    constructor (enabled: bool)
      ensures this.enabled == enabled && sets == EMPTY
    {
      this.enabled := enabled;
      sets := EMPTY;
    }

    ghost predicate Blocks(name: string)
      reads this
    {
      enabled && Matched(sets.domains, sets.wildcard, Normalize(name))
    }

    method IsBlocked(name: string) returns (r: bool)
      ensures r == Blocks(name)
    {
      if !enabled {
        return false;
      }
      var domain := Normalize(name);
      if domain in sets.domains {
        return true;
      }
      r := MatchSuffixes(sets.domains, sets.wildcard, domain);
    }

    /** Reload: scan into new sets, then swap. */
    method ReplaceFromFiles(isIP: string -> bool, files: seq<Option<File>>)
      modifies this
      ensures sets == ReloadBlock(isIP, files) && BlockClean(sets)
    {
      var fresh' := EMPTY;
      for i := 0 to |files|
        invariant fresh' == ReloadBlock(isIP, files[..i]) && BlockClean(fresh')
      {
        assert files[..i + 1][..i] == files[..i];
        if files[i].None? {
          continue;
        }
        LinesKeepClean(isIP, fresh', files[i].value.lines);
        fresh' := ScanInto(isIP, fresh', files[i].value.lines);
      }
      assert files[..|files|] == files;
      sets := fresh';
    }

    /** Startup: one file at a time is scanned apart and merged in; the first unreadable file stops. */
    method LoadFile(isIP: string -> bool, file: Option<File>) returns (ok: bool)
      requires BlockClean(sets)
      modifies this
      ensures ok <==> file.Some? && !file.value.broken
      ensures !ok ==> unchanged(this)
      ensures ok ==> var scanned := AddBlockLines(isIP, EMPTY, file.value.lines);
                     sets.domains == old(sets.domains) + scanned.domains && sets.wildcard == old(sets.wildcard) + scanned.wildcard
      ensures BlockClean(sets)
    {
      if file.None? {
        return false;
      }
      var scanned := ScanInto(isIP, EMPTY, file.value.lines);
      LinesKeepClean(isIP, EMPTY, file.value.lines);
      if file.value.broken {
        return false;
      }
      sets := Sets(sets.domains + scanned.domains, sets.wildcard + scanned.wildcard, {});
      return true;
    }
  }

  lemma NormalizedBlockHost(h: string)
    requires ValidBlockHost(h)
    ensures !HasWildcard(Normalize(h)) ==> '#' !in Normalize(h)
  {
    var t := TrimDot(h);
    ValidHostIsClean(StripWildcard(t), true);
    if HasWildcard(t) {
      assert Lower(t)[0] == '*' && Lower(t)[1] == '.';
    }
  }

  lemma {:induction false} HostsKeepClean(sets: Sets, hosts: seq<string>)
    requires BlockClean(sets)
    ensures BlockClean(AddHosts(sets, hosts))
  {
    hide Normalize, ValidBlockHost;
    if hosts != [] {
      var h := hosts[|hosts| - 1];
      HostsKeepClean(sets, hosts[..|hosts| - 1]);
      if ValidBlockHost(h) {
        NormalizedBlockHost(h);
      }
    }
  }

  lemma {:induction false} LinesKeepClean(isIP: string -> bool, sets: Sets, lines: seq<seq<string>>)
    requires BlockClean(sets)
    ensures BlockClean(AddBlockLines(isIP, sets, lines))
  {
    if lines != [] {
      var n := |lines| - 1;
      LinesKeepClean(isIP, sets, lines[..n]);
      var before := AddBlockLines(isIP, sets, lines[..n]);
      HostsKeepClean(before, lines[n]);
      if lines[n] != [] {
        HostsKeepClean(before, lines[n][1..]);
      }
    }
  }

  // ---- allowlist

  /** One allowlist line; None is a line that aborts the load. */
  function AddAllowLine(isIP: string -> bool, sets: Sets, fields: seq<string>): Option<Sets> {
    if IsComment(fields) then Some(sets)
    else if isIP(fields[0]) || |fields| != 1 then None
    else
      var entry := fields[0];
      var exactOnly := entry != "" && entry[0] == '=';
      var host := if exactOnly then entry[1..] else entry;
      if (exactOnly && HasWildcard(host)) || !ValidAllowEntry(host) then None
      else if exactOnly then Some(sets.(exact := sets.exact + {Normalize(host)}))
      else Some(AddEntry(sets, Normalize(host)))
  }

  function AddAllowLines(isIP: string -> bool, sets: Sets, lines: seq<seq<string>>): Option<Sets> {
    if lines == [] then Some(sets)
    else
      var rest := AddAllowLines(isIP, sets, lines[..|lines| - 1]);
      if rest.None? then None else AddAllowLine(isIP, rest.value, lines[|lines| - 1])
  }

  /** Every file must open, be valid throughout and be read to its end. */
  function ParseAllow(isIP: string -> bool, files: seq<Option<File>>): Option<Sets> {
    if files == [] then Some(EMPTY)
    else
      var rest, f := ParseAllow(isIP, files[..|files| - 1]), files[|files| - 1];
      if rest.None? || f.None? || f.value.broken then None else AddAllowLines(isIP, rest.value, f.value.lines)
  }

  predicate CleanEntry(s: string) {
    CleanHost(s) && Normalize(s) == s
  }

  ghost predicate AllowClean(sets: Sets) {
    && (forall d :: d in sets.domains + sets.exact ==> CleanEntry(d))
    && (forall w :: w in sets.wildcard ==> HasWildcard(w) && CleanEntry(w[2..]))
  }

  method ScanAllowlist(isIP: string -> bool, sets: Sets, lines: seq<seq<string>>) returns (r: Option<Sets>)
    ensures r == AddAllowLines(isIP, sets, lines)
  {
    var acc := sets;
    for i := 0 to |lines|
      invariant AddAllowLines(isIP, sets, lines[..i]) == Some(acc)
    {
      assert lines[..i + 1][..i] == lines[..i];
      var next := AddAllowLine(isIP, acc, lines[i]);
      if next.None? {
        AbortPersists(isIP, sets, lines, i + 1);
        return None;
      }
      acc := next.value;
    }
    assert lines[..|lines|] == lines;
    return Some(acc);
  }

  lemma {:induction false} AbortPersists(isIP: string -> bool, sets: Sets, lines: seq<seq<string>>, i: nat)
    requires i <= |lines| && AddAllowLines(isIP, sets, lines[..i]).None?
    ensures AddAllowLines(isIP, sets, lines).None?
  {
    hide AddAllowLine;
    if i == |lines| {
      assert lines[..i] == lines;
    } else {
      assert lines[..|lines| - 1][..i] == lines[..i];
      AbortPersists(isIP, sets, lines[..|lines| - 1], i);
    }
  }

  lemma {:induction false} FailurePersists(isIP: string -> bool, files: seq<Option<File>>, i: nat)
    requires i <= |files| && ParseAllow(isIP, files[..i]).None?
    ensures ParseAllow(isIP, files).None?
  {
    if i == |files| {
      assert files[..i] == files;
    } else {
      assert files[..|files| - 1][..i] == files[..i];
      FailurePersists(isIP, files[..|files| - 1], i);
    }
  }

  class Allowlist {
    var sets: Sets

    constructor ()
      ensures sets == EMPTY && AllowClean(sets)
    {
      sets := EMPTY;
    }

    ghost predicate Allows(name: string)
      reads this
    {
      AllowedBySets(sets, name)
    }

    method Allowed(name: string) returns (r: bool)
      ensures r == Allows(name)
    {
      if name == "" {
        return false;
      }
      if |sets.domains| == 0 && |sets.wildcard| == 0 && |sets.exact| == 0 {
        assert sets.domains == {} && sets.wildcard == {} && sets.exact == {};
        return false;
      }
      var domain := Normalize(name);
      if domain in sets.domains || domain in sets.exact {
        return true;
      }
      r := MatchSuffixes(sets.domains, sets.wildcard, domain);
    }

    /** All or nothing: one bad line, an unreadable file or an empty result leaves the live sets alone. */
    method LoadFiles(isIP: string -> bool, files: seq<Option<File>>) returns (ok: bool)
      requires AllowClean(sets)
      modifies this
      ensures ok <==> ParseAllow(isIP, files).Some? && ParseAllow(isIP, files).value != EMPTY
      ensures if ok then sets == ParseAllow(isIP, files).value else unchanged(this)
      ensures AllowClean(sets)
    {
      var parsed := EMPTY;
      for i := 0 to |files|
        invariant ParseAllow(isIP, files[..i]) == Some(parsed) && AllowClean(parsed) && unchanged(this)
      {
        assert files[..i + 1][..i] == files[..i];
        if files[i].None? {
          FailurePersists(isIP, files, i + 1);
          return false;
        }
        var next := ScanAllowlist(isIP, parsed, files[i].value.lines);
        if next.None? || files[i].value.broken {
          FailurePersists(isIP, files, i + 1);
          return false;
        }
        AllowLinesKeepClean(isIP, parsed, files[i].value.lines);
        parsed := next.value;
      }
      assert files[..|files|] == files;
      if |parsed.domains| == 0 && |parsed.wildcard| == 0 && |parsed.exact| == 0 {
        assert parsed == EMPTY;
        return false;
      }
      sets := parsed;
      return true;
    }

    /** Bare, wildcard ("*.") and exact ("=") entries as written, in some order. */
    method Entries() returns (out: seq<string>)
      ensures forall e :: e in out <==> IsEntry(sets, e)
    {
      out := [];
      var rest := sets.domains;
      while rest != {}
        invariant rest <= sets.domains && forall e :: e in out <==> e in sets.domains - rest
        decreases rest
      {
        var e :| e in rest;
        rest, out := rest - {e}, out + [e];
      }
      rest := sets.wildcard;
      while rest != {}
        invariant rest <= sets.wildcard && forall e :: e in out <==> e in sets.domains || e in sets.wildcard - rest
        decreases rest
      {
        var e :| e in rest;
        rest, out := rest - {e}, out + [e];
      }
      rest := sets.exact;
      while rest != {}
        invariant rest <= sets.exact && forall e :: e in out <==> IsEntry(sets.(exact := sets.exact - rest), e)
        decreases rest
      {
        var e :| e in rest;
        rest := rest - {e};
        assert ("=" + e)[1..] == e;
        assert forall f: string :: f != "" && f[0] == '=' && f[1..] == e ==> f == "=" + e;
        out := out + ["=" + e];
      }
      assert sets.(exact := sets.exact - {}) == sets;
    }
  }

  predicate IsExact(e: string) {
    e != "" && e[0] == '='
  }

  ghost predicate IsEntry(sets: Sets, e: string) {
    e in sets.domains || e in sets.wildcard || (IsExact(e) && e[1..] in sets.exact)
  }

  ghost predicate AllowedBySets(sets: Sets, name: string) {
    name != "" && (Matched(sets.domains, sets.wildcard, Normalize(name)) || Normalize(name) in sets.exact)
  }

  lemma AddedIsClean(isIP: string -> bool, sets: Sets, fields: seq<string>)
    requires AllowClean(sets)
    ensures var r := AddAllowLine(isIP, sets, fields); r.Some? ==> AllowClean(r.value)
  {
    if AddAllowLine(isIP, sets, fields).Some? && !IsComment(fields) {
      var entry := fields[0];
      var host := if entry != "" && entry[0] == '=' then entry[1..] else entry;
      AllowEntryIsClean(host);
      if entry != "" && entry[0] == '=' {
        ExactIsNotWild(host);
      }
    }
  }

  lemma AllowEntryIsClean(host: string)
    requires ValidAllowEntry(host)
    ensures var e := Normalize(host); if HasWildcard(e) then CleanEntry(e[2..]) else CleanEntry(e)
  {
    var t := TrimDot(host);
    ValidHostIsClean(StripWildcard(t), false);
    LowerIsClean(StripWildcard(t));
    if HasWildcard(t) {
      assert Lower(t) == "*." + Lower(t[2..]);
    } else {
      assert !HasWildcard(Lower(t)) by {
        assert |t| >= 1 ==> Lower(t)[0] in Lower(t);
      }
    }
  }

  lemma ExactIsNotWild(host: string)
    requires ValidAllowEntry(host) && !HasWildcard(host)
    ensures !HasWildcard(Normalize(host))
  {
    var t := TrimDot(host);
    assert |t| >= 2 ==> Lower(t)[0] == LowerChar(t[0]) && Lower(t)[1] == LowerChar(t[1]);
  }

  lemma {:induction false} AllowLinesKeepClean(isIP: string -> bool, sets: Sets, lines: seq<seq<string>>)
    requires AllowClean(sets)
    ensures var r := AddAllowLines(isIP, sets, lines); r.Some? ==> AllowClean(r.value)
  {
    hide AddAllowLine, AllowClean;
    if lines != [] {
      var n := |lines| - 1;
      AllowLinesKeepClean(isIP, sets, lines[..n]);
      var before := AddAllowLines(isIP, sets, lines[..n]);
      if before.Some? {
        AddedIsClean(isIP, before.value, lines[n]);
      }
    }
  }

  // ---- shadowing

  /** The names one entry allows. */
  ghost predicate EntryAllows(e: string, name: string) {
    var n := Normalize(name);
    && name != ""
    && if IsExact(e) then n == e[1..]
       else if HasWildcard(e) then Below(n, e[2..])
       else n == e || Below(n, e)
  }

  /** The suffix loop of `Allowed` is the union of what its entries allow. */
  lemma AllowedIffSomeEntry(sets: Sets, name: string)
    requires AllowClean(sets)
    ensures AllowedBySets(sets, name) <==> exists e :: IsEntry(sets, e) && EntryAllows(e, name)
  {
    hide Normalize;
    var n := Normalize(name);
    if AllowedBySets(sets, name) {
      if n in sets.exact {
        assert ("=" + n)[1..] == n;
        assert IsEntry(sets, "=" + n) && EntryAllows("=" + n, name);
      } else if n in sets.domains {
        CleanIsBare(n);
        assert IsEntry(sets, n) && EntryAllows(n, name);
      } else {
        var e :| Below(n, e) && (e in sets.domains || "*." + e in sets.wildcard);
        if e in sets.domains {
          CleanIsBare(e);
          assert IsEntry(sets, e) && EntryAllows(e, name);
        } else {
          assert ("*." + e)[2..] == e && HasWildcard("*." + e);
          assert IsEntry(sets, "*." + e) && EntryAllows("*." + e, name);
        }
      }
    }
    if e :| IsEntry(sets, e) && EntryAllows(e, name) {
      if e in sets.domains {
        CleanIsBare(e);
      } else if e in sets.wildcard {
        assert e == "*." + e[2..];
      }
    }
  }

  lemma CleanIsBare(e: string)
    requires CleanEntry(e)
    ensures !HasWildcard(e) && !IsExact(e)
  {
    assert e != "" ==> e[0] in e;
  }

  const SHADOW_PROBE: string := "#"

  /** The one name asked about an entry. */
  function Probe(e: string): string {
    if HasWildcard(e) then SHADOW_PROBE + e[1..] else if IsExact(e) then e[1..] else e
  }

  /** Whatever blocks a name blocks every name below it. */
  lemma BlockedDownwards(sets: Sets, d: string, n: string)
    requires Matched(sets.domains, sets.wildcard, d) && (n == d || Below(n, d))
    ensures Matched(sets.domains, sets.wildcard, n)
  {
    if n != d && d !in sets.domains {
      var e :| Below(d, e) && (e in sets.domains || "*." + e in sets.wildcard);
      BelowTransitive(n, d, e);
    }
  }

  /** A blocklist match on the probe below d can only come from an entry that covers all of d. */
  lemma ProbeCoversAll(sets: Sets, d: string, n: string)
    requires BlockClean(sets) && Matched(sets.domains, sets.wildcard, "#." + d) && Below(n, d)
    ensures Matched(sets.domains, sets.wildcard, n)
  {
    var probe := "#." + d;
    assert probe[0] == '#' && probe[0] in probe;
    var e :| Below(probe, e) && (e in sets.domains || "*." + e in sets.wildcard);
    var i :| 0 <= i < |probe| && probe[i] == '.' && probe[i + 1..] == e;
    if i == 1 {
      assert e == d;
    } else {
      assert d[i - 2] == '.' && d[i - 2 + 1..] == e;
      assert Below(d, e);
      BelowTransitive(n, d, e);
    }
  }

  lemma ProbeIsNormal(sets: Sets, e: string)
    requires AllowClean(sets) && IsEntry(sets, e)
    ensures Normalize(Probe(e)) == Probe(e) && EntryAllows(e, Probe(e))
  {
    if e in sets.wildcard {
      var d := e[2..];
      assert CleanEntry(d);
      assert e == "*." + d && Probe(e) == "#." + d;
      assert Probe(e)[1] == '.' && Probe(e)[1 + 1..] == d;
      NormalOfProbe(d);
      assert !IsExact(e);
    } else if e in sets.domains {
      CleanIsBare(e);
    } else {
      CleanIsBare(e[1..]);
      assert !HasWildcard(e);
    }
  }

  lemma NormalOfProbe(d: string)
    requires CleanEntry(d)
    ensures Normalize("#." + d) == "#." + d
  {
    assert TrimDot("#." + d) == "#." + d;
    assert Lower(d) == d;
    assert forall i :: 0 <= i < |d| ==> LowerChar(d[i]) == d[i];
    assert Lower("#." + d) == "#." + d;
  }

  /** One probe per entry decides a statement about infinitely many names. */
  lemma ProbeIsExact(allow: Sets, block: Sets, e: string)
    requires AllowClean(allow) && BlockClean(block) && IsEntry(allow, e)
    ensures Matched(block.domains, block.wildcard, Normalize(Probe(e))) <==>
            forall name :: EntryAllows(e, name) ==> Matched(block.domains, block.wildcard, Normalize(name))
  {
    ProbeIsNormal(allow, e);
    if Matched(block.domains, block.wildcard, Probe(e)) {
      forall name | EntryAllows(e, name) ensures Matched(block.domains, block.wildcard, Normalize(name)) {
        if e in allow.wildcard {
          assert Probe(e) == "#." + e[2..] && !IsExact(e);
          ProbeCoversAll(block, e[2..], Normalize(name));
        } else if e in allow.domains {
          CleanIsBare(e);
          BlockedDownwards(block, e, Normalize(name));
        }
      }
    }
  }

  /** Exactly the entries that can never resolve because every name they allow is blocked. */
  method Shadowed(allow: Allowlist, block: Blocklist) returns (out: seq<string>)
    requires AllowClean(allow.sets) && BlockClean(block.sets)
    ensures forall e :: e in out <==> IsEntry(allow.sets, e) && forall name :: EntryAllows(e, name) ==> block.Blocks(name)
  {
    hide Matched, EntryAllows, Normalize;
    out := [];
    var entries := allow.Entries();
    for i := 0 to |entries|
      invariant forall e :: e in out <==> e in entries[..i] && forall name :: EntryAllows(e, name) ==> block.Blocks(name)
    {
      var e := entries[i];
      assert entries[..i + 1] == entries[..i] + [e];
      assert e in entries;
      var probe := e;
      if probe != "" && probe[0] == '=' {
        probe := probe[1..];
      }
      if HasWildcard(e) {
        probe := SHADOW_PROBE + e[1..];
      }
      var blocked := block.IsBlocked(probe);
      ProbeIsExact(allow.sets, block.sets, e);
      ProbeIsNormal(allow.sets, e);
      assert blocked <==> forall name :: EntryAllows(e, name) ==> block.Blocks(name);
      if blocked {
        out := out + [e];
      }
    }
    assert entries[..|entries|] == entries;
  }
}
