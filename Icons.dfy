/** SafeIcon's name handling: a kebab-case icon name becomes the PascalCase
    name the icon library exports, through a fixed table or, for names outside
    it, a generic rewrite; a name the library does not export falls back to
    HelpCircle. The library itself is a set of exported names. */
module Icons {

  /** The names the component spells out explicitly. */
  const IconMap: map<string, string> := map[
    "scissors" := "Scissors",
    "clock" := "Clock",
    "map-pin" := "MapPin",
    "phone" := "Phone",
    "instagram" := "Instagram",
    "facebook" := "Facebook",
    "send" := "Send",
    "check-circle" := "CheckCircle",
    "chevron-right" := "ChevronRight",
    "star" := "Star",
    "calendar" := "Calendar",
    "user" := "User",
    "mail" := "Mail",
    "message-square" := "MessageSquare",
    "menu" := "Menu",
    "x" := "X",
    "sparkles" := "Sparkles",
    "flame" := "Flame",
    "percent" := "Percent",
    "gift" := "Gift",
    "camera" := "Camera",
    "image" := "Image"
  ]

  /** The icon drawn when the converted name is not exported. */
  const Fallback: string := "HelpCircle"

  predicate IsLower(c: char) {
    'a' <= c <= 'z'
  }

  /** ASCII upper-casing; every other character is kept. */
  function ToUpper(c: char): (u: char)
    ensures !IsLower(u)
    ensures IsLower(c) ==> 'A' <= u <= 'Z' && u as int == c as int - 32
    ensures !IsLower(c) ==> u == c
  {
    if IsLower(c) then (c as int - 32) as char else c
  }

  /** A match of the pattern -([a-z]) starts at position i of s. */
  predicate MatchAt(s: string, i: int) {
    0 <= i && i + 1 < |s| && s[i] == '-' && IsLower(s[i + 1])
  }

  /** s.replace(/-([a-z])/g, g => g[1].toUpperCase()): a left-to-right scan
      that replaces every hyphen followed by a lower-case letter with that
      letter upper-cased and copies every other character. */
  function Camelize(s: string): string
    decreases |s|
  {
    if |s| == 0 then ""
    else if MatchAt(s, 0) then [ToUpper(s[1])] + Camelize(s[2..])
    else [s[0]] + Camelize(s[1..])
  }

  /** The number of positions at which the pattern matches, counted position
      by position. */
  function MatchCount(s: string): nat
    decreases |s|
  {
    if |s| < 2 then 0
    else (if MatchAt(s, 0) then 1 else 0) + MatchCount(s[1..])
  }

  /** name.charAt(0).toUpperCase() + name.slice(1).replace(...). */
  function Convert(name: string): string {
    if name == "" then "" else [ToUpper(name[0])] + Camelize(name[1..])
  }

  /** iconMap[name] || Convert(name): every table value is non-empty, so a
      name in the table always takes its table value. */
  function Normalize(name: string): string {
    if name in IconMap then IconMap[name] else Convert(name)
  }

  /** icons[pascalName] || icons['HelpCircle'], with the library given as the
      set of names it exports. */
  function Resolve(name: string, exported: set<string>): (r: string)
    ensures Normalize(name) in exported ==> r == Normalize(name)
    ensures Normalize(name) !in exported ==> r == Fallback
    ensures Fallback in exported ==> r in exported
  {
    var pascal := Normalize(name);
    if pascal in exported then pascal else Fallback
  }

  /** Camelize keeps a character for every position that does not start a
      match and drops one (the hyphen) for each match. */
  lemma {:induction false} CamelizeLength(s: string)
    ensures |Camelize(s)| == |s| - MatchCount(s)
    decreases |s|
  {
    if |s| == 0 {
    } else if MatchAt(s, 0) {
      CamelizeLength(s[2..]);
      // the letter after the hyphen cannot itself start a match
      assert !MatchAt(s[1..], 0);
      assert s[1..][1..] == s[2..];
    } else {
      CamelizeLength(s[1..]);
    }
  }

  /** The first character of the rewrite: the upper-cased letter of a match
      at the start, the first character otherwise. */
  lemma CamelizeHead(s: string)
    requires |s| > 0
    ensures |Camelize(s)| > 0
    ensures Camelize(s)[0] == if MatchAt(s, 0) then ToUpper(s[1]) else s[0]
  {
  }

  /** No match starts at position i of the rewrite. */
  lemma {:induction false} CamelizeNoMatchAt(s: string, i: int)
    ensures !MatchAt(Camelize(s), i)
    decreases |s|
  {
    if |s| > 0 && i >= 0 {
      var rest := if MatchAt(s, 0) then s[2..] else s[1..];
      var r, tail := Camelize(s), Camelize(rest);
      assert r == [r[0]] + tail;
      if i == 0 {
        if |tail| > 0 && r[0] == '-' {
          // the hyphen was copied, so what follows it is not a lower-case letter
          assert !MatchAt(s, 0) && rest == s[1..];
          CamelizeHead(rest);
        }
      } else {
        CamelizeNoMatchAt(rest, i - 1);
        assert MatchAt(r, i) == MatchAt(tail, i - 1);
      }
    }
  }

  /** No hyphen in the rewrite is followed by a lower-case letter. */
  lemma CamelizeHasNoMatch(s: string)
    ensures forall i :: !MatchAt(Camelize(s), i)
  {
    forall i ensures !MatchAt(Camelize(s), i) {
      CamelizeNoMatchAt(s, i);
    }
  }

  /** A name without a match is left as it is. */
  lemma {:induction false} CamelizeNoMatchIdentity(s: string)
    requires forall i :: !MatchAt(s, i)
    ensures Camelize(s) == s
    decreases |s|
  {
    if |s| > 0 {
      assert !MatchAt(s, 0);
      forall i ensures !MatchAt(s[1..], i) {
        assert !MatchAt(s, i + 1);
      }
      CamelizeNoMatchIdentity(s[1..]);
    }
  }

  /** Re-applying the rewrite changes nothing. */
  lemma {:induction false} CamelizeIdempotent(s: string)
    ensures Camelize(Camelize(s)) == Camelize(s)
  {
    CamelizeHasNoMatch(s);
    CamelizeNoMatchIdentity(Camelize(s));
  }

  /** What the rewrite emits for position i of s when position i does not
      start a match: the letter upper-cased if a match ends there, the
      character itself otherwise. */
  function EmittedAt(s: string, i: int): char
    requires 0 <= i < |s|
  {
    if MatchAt(s, i - 1) then ToUpper(s[i]) else s[i]
  }

  /** A position-by-position statement of the rewrite, from position i on:
      every position that starts a match is dropped and every other position
      emits EmittedAt. */
  function RewriteFrom(s: string, i: nat): string
    requires i <= |s|
    decreases |s| - i
  {
    if i == |s| then ""
    else (if MatchAt(s, i) then "" else [EmittedAt(s, i)]) + RewriteFrom(s, i + 1)
  }

  /** The left-to-right scan agrees with the position-by-position statement:
      matches never overlap, so each hyphen before a lower-case letter is
      dropped and that letter upper-cased, and everything else is copied. */
  lemma {:induction false} CamelizeIsPointwise(s: string, i: nat)
    requires i <= |s| && !MatchAt(s, i - 1)
    ensures Camelize(s[i..]) == RewriteFrom(s, i)
    decreases |s| - i
  {
    if i < |s| {
      if MatchAt(s, i) {
        assert MatchAt(s[i..], 0);
        assert s[i..][2..] == s[i + 2..];
        assert !MatchAt(s, i + 1);
        CamelizeIsPointwise(s, i + 2);
        assert RewriteFrom(s, i + 1) == [ToUpper(s[i + 1])] + RewriteFrom(s, i + 2);
      } else {
        assert !MatchAt(s[i..], 0);
        assert s[i..][1..] == s[i + 1..];
        CamelizeIsPointwise(s, i + 1);
      }
    }
  }

  /** A non-empty name outside the table becomes its first character
      upper-cased followed by the rest rewritten position by position, and so
      is one character shorter for each match after the first character. */
  lemma NormalizeOutsideTable(name: string)
    requires name !in IconMap && name != ""
    ensures Normalize(name) == [ToUpper(name[0])] + RewriteFrom(name[1..], 0)
    ensures |Normalize(name)| == |name| - MatchCount(name[1..])
  {
    var rest := name[1..];
    assert rest[0..] == rest;
    CamelizeIsPointwise(rest, 0);
    CamelizeLength(rest);
  }

  /** A string without hyphens has no match. */
  lemma NoHyphenNoMatch(s: string)
    requires '-' !in s
    ensures forall i :: !MatchAt(s, i)
  {
  }

  /** The first step of the rewrite of a + b is the first step of the rewrite
      of a, when a does not end in a hyphen. */
  lemma CamelizeAppendStep(a: string, b: string)
    requires a != [] && a[|a| - 1] != '-'
    ensures var k := if MatchAt(a, 0) then 2 else 1;
      k <= |a| &&
      Camelize(a) == (if k == 2 then [ToUpper(a[1])] else [a[0]]) + Camelize(a[k..]) &&
      Camelize(a + b) == (if k == 2 then [ToUpper(a[1])] else [a[0]]) + Camelize(a[k..] + b)
  {
    var s := a + b;
    var k := if MatchAt(a, 0) then 2 else 1;
    assert MatchAt(s, 0) == MatchAt(a, 0) by {
      assert s[0] == a[0];
      if |a| >= 2 { assert s[1] == a[1]; }
    }
    assert s[k..] == a[k..] + b;
  }

  /** The rewrite works piece by piece when no match straddles the cut. */
  lemma {:induction false} CamelizeAppend(a: string, b: string)
    requires a == [] || a[|a| - 1] != '-'
    ensures Camelize(a + b) == Camelize(a) + Camelize(b)
    decreases |a|
  {
    if |a| == 0 {
      assert a + b == b;
    } else {
      CamelizeAppendStep(a, b);
      var k := if MatchAt(a, 0) then 2 else 1;
      var h := if k == 2 then [ToUpper(a[1])] else [a[0]];
      var a' := a[k..];
      assert a' == [] || a'[|a'| - 1] == a[|a| - 1];
      CamelizeAppend(a', b);
      assert h + (Camelize(a') + Camelize(b)) == (h + Camelize(a')) + Camelize(b);
    }
  }

  /** A word without hyphens is copied unchanged. */
  lemma PlainWord(w: string)
    requires '-' !in w
    ensures Camelize(w) == w
  {
    NoHyphenNoMatch(w);
    CamelizeNoMatchIdentity(w);
  }

  /** The generic rewrite of a two-word kebab-case name. */
  lemma TwoWords(name: string, head: string, tail: string)
    requires head != [] && tail != [] && IsLower(tail[0])
    requires '-' !in head && '-' !in tail
    requires name == head + "-" + tail
    ensures Convert(name) == [ToUpper(head[0])] + head[1..] + [ToUpper(tail[0])] + tail[1..]
  {
    assert name[1..] == head[1..] + ("-" + tail);
    PlainWord(head[1..]);
    CamelizeAppend(head[1..], "-" + tail);
    assert MatchAt("-" + tail, 0);
    assert ("-" + tail)[2..] == tail[1..];
    PlainWord(tail[1..]);
  }

  /** The generic rewrite of a one-word name. */
  lemma OneWord(name: string)
    requires name != [] && '-' !in name
    ensures Convert(name) == [ToUpper(name[0])] + name[1..]
  {
    PlainWord(name[1..]);
  }

  /** Converting an already converted name changes nothing. */
  lemma ConvertIdempotent(name: string)
    ensures Convert(Convert(name)) == Convert(name)
  {
    if name != "" {
      var c := Convert(name);
      assert c[0] == ToUpper(name[0]) && c[1..] == Camelize(name[1..]);
      CamelizeIdempotent(name[1..]);
    }
  }

  /** Every table key starts with a lower-case letter. */
  lemma KeysStartLower(key: string)
    requires key in IconMap
    ensures key != "" && IsLower(key[0])
  {
  }

  /** A converted name is never a table key, so for a name outside the table
      normalising twice is normalising once. */
  lemma NormalizeIdempotentOutsideTable(name: string)
    requires name !in IconMap
    ensures Normalize(Normalize(name)) == Normalize(name)
  {
    var c := Convert(name);
    if c in IconMap {
      KeysStartLower(c);
      assert false;
    }
    ConvertIdempotent(name);
  }

  /** A name that already starts with a capital (or any character other than
      a lower-case letter) and has no hyphen before a lower-case letter is not
      a table key and passes through unchanged: PascalCase names such as
      "CheckCircle" normalise to themselves. */
  lemma PascalPassesThrough(p: string)
    requires p != "" && !IsLower(p[0])
    requires forall i :: !MatchAt(p, i)
    ensures Normalize(p) == p
  {
    if p in IconMap {
      KeysStartLower(p);
      assert false;
    }
    forall i ensures !MatchAt(p[1..], i) {
      assert !MatchAt(p, i + 1);
    }
    CamelizeNoMatchIdentity(p[1..]);
    assert p == [p[0]] + p[1..];
  }
}
