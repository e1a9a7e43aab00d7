/** What the list files mean: which names are blocked, and which allowed, after a load. */
module ListFiles {
  import opened Dns
  import opened Lists

  // ---- blocklists

  /** The hosts a line names: all after an address, or the one field of a line that has no other. */
  predicate Names(isIP: string -> bool, fields: seq<string>, host: string) {
    && fields != [] && !(fields[0] != "" && fields[0][0] == '#')
    && if isIP(fields[0]) then host in fields[1..] else fields == [host]
  }

  ghost predicate LineLists(isIP: string -> bool, fields: seq<string>, d: string) {
    exists host :: Names(isIP, fields, host) && ValidBlockHost(host) && d == Normalize(host)
  }

  ghost predicate FileLists(isIP: string -> bool, lines: seq<seq<string>>, d: string) {
    exists j :: 0 <= j < |lines| && LineLists(isIP, lines[j], d)
  }

  ghost predicate Listed(isIP: string -> bool, files: seq<Option<File>>, d: string) {
    exists i :: 0 <= i < |files| && files[i].Some? && FileLists(isIP, files[i].value.lines, d)
  }

  predicate Holds(sets: Sets, d: string) {
    if HasWildcard(d) then d in sets.wildcard else d in sets.domains
  }

  /** Entries sit where their form says. */
  ghost predicate Sorted(sets: Sets) {
    (forall d :: d in sets.domains ==> !HasWildcard(d)) && forall d :: d in sets.wildcard ==> HasWildcard(d)
  }

  lemma {:induction false} HostsMean(sets: Sets, hosts: seq<string>, d: string)
    requires Sorted(sets)
    ensures Sorted(AddHosts(sets, hosts))
    ensures Holds(AddHosts(sets, hosts), d) <==> Holds(sets, d) || exists host :: host in hosts && ValidBlockHost(host) && d == Normalize(host)
  {
    hide ValidBlockHost, Normalize;
    if hosts != [] {
      var n := |hosts| - 1;
      HostsMean(sets, hosts[..n], d);
      assert hosts == hosts[..n] + [hosts[n]];
    }
  }

  lemma LineMeans(isIP: string -> bool, sets: Sets, fields: seq<string>, d: string)
    requires Sorted(sets)
    ensures Sorted(AddBlockLine(isIP, sets, fields))
    ensures Holds(AddBlockLine(isIP, sets, fields), d) <==> Holds(sets, d) || LineLists(isIP, fields, d)
  {
    hide ValidBlockHost, Normalize, AddHosts;
    HostsMean(sets, fields, d);
    if fields != [] {
      HostsMean(sets, fields[1..], d);
      if |fields| == 1 {
        assert fields == [fields[0]] && fields[0] in fields;
      }
    }
  }

  lemma {:induction false} LinesMean(isIP: string -> bool, sets: Sets, lines: seq<seq<string>>, d: string)
    requires Sorted(sets)
    ensures Sorted(AddBlockLines(isIP, sets, lines))
    ensures Holds(AddBlockLines(isIP, sets, lines), d) <==> Holds(sets, d) || FileLists(isIP, lines, d)
  {
    hide AddBlockLine, LineLists;
    if lines != [] {
      var n := |lines| - 1;
      LinesMean(isIP, sets, lines[..n], d);
      LineMeans(isIP, AddBlockLines(isIP, sets, lines[..n]), lines[n], d);
      assert forall j :: 0 <= j < n ==> lines[..n][j] == lines[j];
    }
  }

  /** After a reload the blocklist holds exactly the normal forms of the valid hosts that the lines of the
      readable files name, wildcards apart from plain names. */
  lemma {:induction false} ReloadMeans(isIP: string -> bool, files: seq<Option<File>>, d: string)
    ensures Sorted(ReloadBlock(isIP, files))
    ensures Holds(ReloadBlock(isIP, files), d) <==> Listed(isIP, files, d)
  {
    hide AddBlockLines, FileLists;
    if files != [] {
      var n := |files| - 1;
      ReloadMeans(isIP, files[..n], d);
      if files[n].Some? {
        LinesMean(isIP, ReloadBlock(isIP, files[..n]), files[n].value.lines, d);
      }
      assert forall i :: 0 <= i < n ==> files[..n][i] == files[i];
    }
  }

  /** The names one blocklist entry blocks. */
  ghost predicate EntryBlocks(d: string, n: string) {
    if HasWildcard(d) then Below(n, d[2..]) else n == d || Below(n, d)
  }

  /** From the files to the name: a name is blocked after a reload if and only if some valid host that some
      line of a readable file names blocks it. */
  lemma BlockedIff(isIP: string -> bool, files: seq<Option<File>>, name: string)
    ensures var sets := ReloadBlock(isIP, files);
            Matched(sets.domains, sets.wildcard, Normalize(name)) <==> exists d :: Listed(isIP, files, d) && EntryBlocks(d, Normalize(name))
  {
    hide ReloadBlock, Normalize, Listed;
    var sets, n := ReloadBlock(isIP, files), Normalize(name);
    forall d ensures Holds(sets, d) <==> Listed(isIP, files, d) {
      ReloadMeans(isIP, files, d);
    }
    ReloadMeans(isIP, files, n);
    if n in sets.domains {
      assert EntryBlocks(n, n) && Holds(sets, n);
    } else if Matched(sets.domains, sets.wildcard, n) {
      var e :| Below(n, e) && (e in sets.domains || "*." + e in sets.wildcard);
      if e in sets.domains {
        assert EntryBlocks(e, n) && Holds(sets, e);
      } else {
        assert ("*." + e)[2..] == e && HasWildcard("*." + e);
        assert EntryBlocks("*." + e, n) && Holds(sets, "*." + e);
      }
    }
    if d :| Holds(sets, d) && EntryBlocks(d, n) {
      if HasWildcard(d) {
        assert d == "*." + d[2..];
      }
    }
  }

  // ---- allowlists

  /** A line that does not spoil an allowlist: a comment, or one valid entry and nothing else. */
  predicate GoodLine(isIP: string -> bool, fields: seq<string>) {
    || fields == [] || (fields[0] != "" && fields[0][0] == '#')
    || (&& |fields| == 1 && !isIP(fields[0])
        && if IsExact(fields[0]) then !HasWildcard(fields[0][1..]) && ValidAllowEntry(fields[0][1..]) else ValidAllowEntry(fields[0]))
  }

  predicate GoodFile(isIP: string -> bool, f: Option<File>) {
    f.Some? && !f.value.broken && forall j :: 0 <= j < |f.value.lines| ==> GoodLine(isIP, f.value.lines[j])
  }

  /** The entry a good line makes: plain or wildcard in normal form, or an exact one behind its sign. */
  ghost predicate LineAllows(fields: seq<string>, e: string) {
    && |fields| == 1 && !(fields[0] != "" && fields[0][0] == '#')
    && e == if IsExact(fields[0]) then "=" + Normalize(fields[0][1..]) else Normalize(fields[0])
  }

  ghost predicate FilesAllow(files: seq<Option<File>>, e: string) {
    exists i, j :: 0 <= i < |files| && files[i].Some? && 0 <= j < |files[i].value.lines| && LineAllows(files[i].value.lines[j], e)
  }

  /** Plain, wildcard and exact entries, told apart by their form. */
  ghost predicate Has(sets: Sets, e: string) {
    if IsExact(e) then e[1..] in sets.exact else Holds(sets, e)
  }

  ghost predicate Filed(sets: Sets) {
    Sorted(sets) && (forall d :: d in sets.domains ==> !IsExact(d))
  }

  lemma AllowLineMeans(isIP: string -> bool, sets: Sets, fields: seq<string>, e: string)
    requires Filed(sets)
    ensures var r := AddAllowLine(isIP, sets, fields);
            && (r.Some? <==> GoodLine(isIP, fields))
            && (r.Some? ==> Filed(r.value) && (Has(r.value, e) <==> Has(sets, e) || LineAllows(fields, e)))
  {
    hide ValidAllowEntry, Normalize;
    if GoodLine(isIP, fields) && |fields| == 1 && !IsComment(fields) {
      var host := if IsExact(fields[0]) then fields[0][1..] else fields[0];
      AllowEntryForm(host);
      assert ("=" + Normalize(host))[1..] == Normalize(host);
      assert IsExact(e) ==> e == "=" + e[1..];
      assert fields == [fields[0]];
    }
  }

  /** A valid entry in normal form is not taken for an exact one. */
  lemma AllowEntryForm(host: string)
    requires ValidAllowEntry(host)
    ensures !IsExact(Normalize(host)) && host != ""
  {
    AllowEntryIsClean(host);
  }

  lemma {:induction false} AllowLinesMean(isIP: string -> bool, sets: Sets, lines: seq<seq<string>>, e: string)
    requires Filed(sets)
    ensures var r := AddAllowLines(isIP, sets, lines);
            && (r.Some? <==> forall j :: 0 <= j < |lines| ==> GoodLine(isIP, lines[j]))
            && (r.Some? ==> Filed(r.value) && (Has(r.value, e) <==> Has(sets, e) || exists j :: 0 <= j < |lines| && LineAllows(lines[j], e)))
  {
    hide AddAllowLine, GoodLine, LineAllows;
    if lines != [] {
      var n := |lines| - 1;
      AllowLinesMean(isIP, sets, lines[..n], e);
      assert forall j :: 0 <= j < n ==> lines[..n][j] == lines[j];
      var before := AddAllowLines(isIP, sets, lines[..n]);
      if before.Some? {
        AllowLineMeans(isIP, before.value, lines[n], e);
      }
    }
  }

  /** A set of allowlist files loads exactly if every one opens, is read to its end and has no bad line; and
      then it holds exactly the entries its lines make. */
  lemma {:induction false} ParseMeans(isIP: string -> bool, files: seq<Option<File>>, e: string)
    ensures var r := ParseAllow(isIP, files);
            && (r.Some? <==> forall i :: 0 <= i < |files| ==> GoodFile(isIP, files[i]))
            && (r.Some? ==> Filed(r.value) && (Has(r.value, e) <==> FilesAllow(files, e)))
  {
    hide AddAllowLines, LineAllows, GoodLine;
    if files != [] {
      var n := |files| - 1;
      ParseMeans(isIP, files[..n], e);
      assert forall i :: 0 <= i < n ==> files[..n][i] == files[i];
      var before, f := ParseAllow(isIP, files[..n]), files[n];
      if before.Some? && f.Some? && !f.value.broken {
        AllowLinesMean(isIP, before.value, f.value.lines, e);
        if Has(before.value, e) {
          var i, j :| 0 <= i < n && files[..n][i].Some? && 0 <= j < |files[..n][i].value.lines| && LineAllows(files[..n][i].value.lines[j], e);
          assert files[i].Some? && LineAllows(files[i].value.lines[j], e);
        }
        if i, j :| 0 <= i < |files| && files[i].Some? && 0 <= j < |files[i].value.lines| && LineAllows(files[i].value.lines[j], e) {
          if i < n {
            assert LineAllows(files[..n][i].value.lines[j], e);
          }
        }
      }
    }
  }

  // ---- names and hosts

  /** Two names have one normal form exactly if they are the same up to case and a trailing dot. */
  lemma NormalizeIff(a: string, b: string)
    ensures Normalize(a) == Normalize(b) <==> SameName(a, b)
  {
    assert TrimDot(a) == Bare(a) && TrimDot(b) == Bare(b);
    if Normalize(a) == Normalize(b) {
      forall i | 0 <= i < |Bare(a)| ensures LowerChar(Bare(a)[i]) == LowerChar(Bare(b)[i]) {
        assert Normalize(a)[i] == Normalize(b)[i];
      }
    }
  }

  /** So neither list tells such names apart. */
  lemma ListsIgnoreCase(sets: Sets, a: string, b: string)
    requires SameName(a, b) && a != "" && b != ""
    ensures Matched(sets.domains, sets.wildcard, Normalize(a)) <==> Matched(sets.domains, sets.wildcard, Normalize(b))
    ensures AllowedBySets(sets, a) <==> AllowedBySets(sets, b)
  {
    hide Normalize, SameName, Matched;
    NormalizeIff(a, b);
  }

  /** A letter, a digit, the hyphen and, in blocklists, the underscore, by their codes. */
  predicate HostChar(c: char, underscore: bool) {
    var code := c as int;
    97 <= code <= 122 || 65 <= code <= 90 || 48 <= code <= 57 || code == 45 || (underscore && code == 95)
  }

  /** The form of a host, letter by letter: dots between labels only, hyphens inside labels only. */
  predicate HostForm(s: string, underscore: bool) {
    && s != "" && s[0] != '.' && s[0] != '-' && s[|s| - 1] != '.' && s[|s| - 1] != '-'
    && (forall i :: 0 <= i < |s| ==> s[i] == '.' || HostChar(s[i], underscore))
    && (forall i :: 0 < i < |s| && s[i - 1] == '.' ==> s[i] != '.' && s[i] != '-')
    && (forall i :: 0 < i < |s| && s[i] == '.' ==> s[i - 1] != '-')
  }

  /** Sixty-four letters in a row are too many. */
  predicate HasLongLabel(s: string) {
    exists i: nat :: i < |s| && Undotted(s, i)
  }

  predicate Undotted(s: string, i: nat) {
    i + 64 <= |s| && forall j :: i <= j < i + 64 ==> s[j] != '.'
  }

  lemma LabelIff(l: string, underscore: bool)
    requires '.' !in l
    ensures LabelOk(l, underscore) <==> HostForm(l, underscore) && !HasLongLabel(l)
  {
    forall c: char ensures LabelChar(c, underscore) <==> HostChar(c, underscore) {
    }
    hide LabelChar, HostChar;
    forall i | 0 <= i < |l| ensures l[i] != '.' {
      assert l[i] in l;
    }
    if |l| >= 64 {
      assert Undotted(l, 0);
    }
  }

  predicate LabelsOk(labels: seq<string>, underscore: bool) {
    forall i :: 0 <= i < |labels| ==> LabelOk(labels[i], underscore)
  }

  lemma LabelsStep(l: string, labels: seq<string>, underscore: bool)
    ensures LabelsOk([l] + labels, underscore) <==> LabelOk(l, underscore) && LabelsOk(labels, underscore)
  {
    hide LabelOk;
    var all := [l] + labels;
    assert all[0] == l && forall i :: 0 <= i < |labels| ==> all[i + 1] == labels[i];
  }

  lemma NoEmptyLabel(underscore: bool)
    ensures !LabelsOk(Split(""), underscore)
  {
    assert !LabelOk(Split("")[0], underscore);
  }

  lemma HostIsLabels(s: string, underscore: bool)
    ensures HostOk(s, underscore) <==> s != "" && LabelsOk(Split(s), underscore)
  {
    hide LabelOk, Split;
  }

  lemma SplitAt(s: string, p: nat)
    requires '.' in s && p == FirstDot(s)
    ensures Split(s) == [s[..p]] + Split(s[p + 1..])
  {
  }

  lemma HostStep(s: string, underscore: bool, p: nat)
    requires '.' in s && p == FirstDot(s)
    ensures HostOk(s, underscore) <==> LabelOk(s[..p], underscore) && HostOk(s[p + 1..], underscore)
  {
    hide *;
    var rest := s[p + 1..];
    SplitAt(s, p);
    HostIsLabels(s, underscore);
    HostIsLabels(rest, underscore);
    LabelsStep(s[..p], Split(rest), underscore);
    NoEmptyLabel(underscore);
  }

  lemma FormStep(s: string, underscore: bool, p: nat)
    requires p < |s| && s[p] == '.' && '.' !in s[..p]
    ensures HostForm(s, underscore) <==> HostForm(s[..p], underscore) && HostForm(s[p + 1..], underscore)
  {
    hide HostChar;
    var head, rest := s[..p], s[p + 1..];
    assert forall i :: 0 <= i < p ==> s[i] == head[i];
    assert forall i :: p < i < |s| ==> s[i] == rest[i - p - 1];
    if HostForm(s, underscore) {
      assert p > 0 && s[p - 1] != '-' && p + 1 < |s| && s[p + 1] != '.';
      assert forall i :: 0 <= i < |rest| ==> rest[i] == s[i + p + 1];
      assert HostForm(rest, underscore);
      assert HostForm(head, underscore);
    }
    if HostForm(head, underscore) && HostForm(rest, underscore) {
      forall i | 0 < i < |s| && s[i - 1] == '.' ensures s[i] != '.' && s[i] != '-' {
        if i > p + 1 {
          assert s[i - 1] == rest[i - p - 2] && s[i] == rest[i - p - 1];
        }
      }
      forall i | 0 < i < |s| && s[i] == '.' ensures s[i - 1] != '-' {
        if i > p + 1 {
          assert s[i - 1] == rest[i - p - 2] && s[i] == rest[i - p - 1];
        }
      }
    }
  }

  lemma LongStep(s: string, p: nat)
    requires p < |s| && s[p] == '.'
    ensures HasLongLabel(s) <==> HasLongLabel(s[..p]) || HasLongLabel(s[p + 1..])
  {
    var head, rest := s[..p], s[p + 1..];
    if i: nat :| i < |s| && Undotted(s, i) {
      if i + 64 <= p {
        assert Undotted(head, i);
      } else {
        assert !(i <= p < i + 64);
        assert Undotted(rest, i - p - 1);
      }
    }
    if i: nat :| i < |head| && Undotted(head, i) {
      forall j | i <= j < i + 64 ensures s[j] != '.' {
        assert s[j] == head[j];
      }
      assert Undotted(s, i);
    }
    if i: nat :| i < |rest| && Undotted(rest, i) {
      forall j | i + p + 1 <= j < i + p + 1 + 64 ensures s[j] != '.' {
        assert s[j] == rest[j - p - 1];
      }
      assert Undotted(s, i + p + 1);
    }
  }

  /** Which hosts are valid, letter by letter: the split into labels and the test of each come to this. */
  lemma {:induction false} HostIff(s: string, underscore: bool)
    ensures HostOk(s, underscore) <==> HostForm(s, underscore) && !HasLongLabel(s)
    decreases |s|
  {
    if '.' in s {
      var p := FirstDot(s);
      HostIff(s[p + 1..], underscore);
      HostStep(s, underscore, p);
      FormStep(s, underscore, p);
      LongStep(s, p);
      LabelIff(s[..p], underscore);
      hide HostOk, HostForm, HasLongLabel, LabelOk;
    } else {
      LabelIff(s, underscore);
      assert Split(s) == [s];
      assert s == "" ==> !LabelOk(s, underscore);
      assert HostOk(s, underscore) <==> LabelOk(s, underscore) by {
        hide LabelOk;
        assert HostOk(s, underscore) ==> LabelOk(Split(s)[0], underscore);
      }
    }
  }
}
