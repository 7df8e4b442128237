/** `redact` of safenestt/security/redaction.py on nested dictionaries and lists with string keys. */
module Redaction {
  import opened Basics

  // A dictionary keeps its insertion order.
  datatype Value =
    | Null | Bool(b: bool) | Number(n: real) | Str(s: string)
    | List(items: seq<Value>) | Dict(entries: seq<(string, Value)>)

  // The alternatives of the five patterns.
  const SECRET_WORDS: seq<string> := [
    "api_key", "api-key", "apikey",
    "password", "passwd", "pwd",
    "secret", "token", "refresh_token", "access_token",
    "authorization", "bearer",
    "private_key", "client_secret"]

  const MARKER := "[REDACTED]"

  // What re.IGNORECASE identifies with a lower-case letter.
  function Fold(c: char): char {
    if 'A' <= c <= 'Z' then c + 32 as char
    else if c == '\U{130}' || c == '\U{131}' then 'i'
    else if c == '\U{17F}' then 's'
    else if c == '\U{212A}' then 'k'
    else c
  }

  predicate MatchesAt(word: string, s: string, i: nat) {
    i + |word| <= |s| && forall j :: 0 <= j < |word| ==> Fold(s[i + j]) == word[j]
  }

  predicate LooksSecret(s: string) {
    exists w, i :: 0 <= w < |SECRET_WORDS| && 0 <= i <= |s| && MatchesAt(SECRET_WORDS[w], s, i)
  }

  // The character reads as this letter when case is ignored.
  predicate SameLetter(c: char, letter: char) {
    || c == letter
    || ('a' <= letter <= 'z' && c as int + 32 == letter as int)
    || (letter == 'i' && (c == '\U{130}' || c == '\U{131}'))
    || (letter == 's' && c == '\U{17F}')
    || (letter == 'k' && c == '\U{212A}')
  }

  ghost predicate ReadsAt(word: string, s: string, i: nat) {
    i + |word| <= |s| && forall j :: 0 <= j < |word| ==> SameLetter(s[i + j], word[j])
  }

  predicate NamesSecret(word: string) {
    word in {"api_key", "api-key", "apikey", "password", "passwd", "pwd", "secret", "token", "refresh_token",
             "access_token", "authorization", "bearer", "private_key", "client_secret"}
  }

  lemma FoldIsSameLetter(c: char, letter: char)
    requires 'a' <= letter <= 'z' || letter == '_' || letter == '-'
    ensures Fold(c) == letter <==> SameLetter(c, letter)
  {
  }

  lemma SecretWordsNameSecrets()
    ensures forall w :: 0 <= w < |SECRET_WORDS| ==> NamesSecret(SECRET_WORDS[w])
    ensures forall word :: NamesSecret(word) ==> word in SECRET_WORDS
  {
    assert SECRET_WORDS[0] == "api_key" && SECRET_WORDS[1] == "api-key" && SECRET_WORDS[2] == "apikey";
    assert SECRET_WORDS[3] == "password" && SECRET_WORDS[4] == "passwd" && SECRET_WORDS[5] == "pwd";
    assert SECRET_WORDS[6] == "secret" && SECRET_WORDS[7] == "token" && SECRET_WORDS[8] == "refresh_token";
    assert SECRET_WORDS[9] == "access_token" && SECRET_WORDS[10] == "authorization" && SECRET_WORDS[11] == "bearer";
    assert SECRET_WORDS[12] == "private_key" && SECRET_WORDS[13] == "client_secret";
  }

  lemma MatchesExactlyWhereItReads(word: string, s: string, i: nat)
    requires NamesSecret(word)
    ensures MatchesAt(word, s, i) <==> ReadsAt(word, s, i)
  {
    if i + |word| <= |s| {
      forall j | 0 <= j < |word| ensures Fold(s[i + j]) == word[j] <==> SameLetter(s[i + j], word[j]) {
        FoldIsSameLetter(s[i + j], word[j]);
      }
    }
  }

  /** A string looks secret exactly if one of the words that name secrets can be read in it
      somewhere, in capitals or not. */
  lemma LooksSecretExactlyWhen(s: string)
    ensures LooksSecret(s) <==> exists word, i :: NamesSecret(word) && 0 <= i <= |s| && ReadsAt(word, s, i)
  {
    SecretWordsNameSecrets();
    if LooksSecret(s) {
      var w, i :| 0 <= w < |SECRET_WORDS| && 0 <= i <= |s| && MatchesAt(SECRET_WORDS[w], s, i);
      MatchesExactlyWhereItReads(SECRET_WORDS[w], s, i);
    }
    if word, i :| NamesSecret(word) && 0 <= i <= |s| && ReadsAt(word, s, i) {
      MatchesExactlyWhereItReads(word, s, i);
      var w :| 0 <= w < |SECRET_WORDS| && SECRET_WORDS[w] == word;
      assert MatchesAt(SECRET_WORDS[w], s, i);
    }
  }

  function Redact(v: Value): Value {
    match v
    case Dict(entries) =>
      Dict(seq(|entries|, i requires 0 <= i < |entries| =>
        (entries[i].0, if LooksSecret(entries[i].0) then Str(MARKER) else Redact(entries[i].1))))
    case List(items) => List(seq(|items|, i requires 0 <= i < |items| => Redact(items[i])))
    case Str(s) => if LooksSecret(s) then Str(MARKER) else v
    case _ => v
  }

  /** The marker is not itself taken for a secret. */
  lemma MarkerIsPublic()
    ensures !LooksSecret(MARKER)
  {
    var low := "[redacted]";
    assert forall i :: 0 <= i < 10 ==> Fold(MARKER[i]) == low[i];
    forall w, i | 0 <= w < |SECRET_WORDS| && 0 <= i <= |MARKER| ensures !MatchesAt(SECRET_WORDS[w], MARKER, i) {
      var word := SECRET_WORDS[w];
      if i + |word| <= |MARKER| {
        assert Fold(MARKER[i + 0]) == low[i] && Fold(MARKER[i + 1]) == low[i + 1] && Fold(MARKER[i + 2]) == low[i + 2];
        assert low[i] != word[0] || low[i + 1] != word[1] || low[i + 2] != word[2];
      }
    }
  }

  /** Redacting twice changes nothing more. */
  lemma {:induction false} Idempotent(v: Value)
    ensures Redact(Redact(v)) == Redact(v)
  {
    MarkerIsPublic();
    match v
    case Dict(entries) =>
      var once := Redact(v).entries;
      forall i | 0 <= i < |entries| ensures Redact(Redact(v)).entries[i] == once[i] {
        Idempotent(entries[i].1);
      }
      assert Redact(Redact(v)).entries == once;
    case List(items) =>
      var once := Redact(v).items;
      forall i | 0 <= i < |items| ensures Redact(Redact(v)).items[i] == once[i] {
        Idempotent(items[i]);
      }
      assert Redact(Redact(v)).items == once;
    case _ =>
  }

  // ---------------------------------------------------------------- position by position

  // The value found by descending through list and dictionary positions.
  function At(v: Value, path: seq<nat>): Option<Value> {
    if path == [] then Some(v)
    else if v.List? && path[0] < |v.items| then At(v.items[path[0]], path[1..])
    else if v.Dict? && path[0] < |v.entries| then At(v.entries[path[0]].1, path[1..])
    else None
  }

  // How many of the path's steps are taken up to and including the first secret-looking key.
  function SecretDepth(v: Value, path: seq<nat>): Option<nat> {
    if path == [] then None
    else if v.List? && path[0] < |v.items| then Deeper(SecretDepth(v.items[path[0]], path[1..]))
    else if v.Dict? && path[0] < |v.entries| then
      if LooksSecret(v.entries[path[0]].0) then Some(1) else Deeper(SecretDepth(v.entries[path[0]].1, path[1..]))
    else None
  }

  function Deeper(depth: Option<nat>): Option<nat> {
    if depth.Some? then Some(depth.value + 1) else None
  }

  // The node itself: its kind, length, keys and scalar value, without what lies below.
  datatype Node = Scalar(v: Value) | ListOf(length: nat) | DictOf(keys: seq<string>)

  function NodeOf(v: Value): Node {
    match v
    case List(items) => ListOf(|items|)
    case Dict(entries) => DictOf(seq(|entries|, i requires 0 <= i < |entries| => entries[i].0))
    case _ => Scalar(v)
  }

  /** The redacted value at every path: the marker right under the first secret-looking key and
      nothing below it; elsewhere the same node as before (same kind, length and keys), except
      that a secret-looking string is the marker. No path is invented. */
  lemma {:induction false} RedactedAt(v: Value, path: seq<nat>)
    ensures var was, now, depth := At(v, path), At(Redact(v), path), SecretDepth(v, path);
      if depth.Some? then now == (if depth.value == |path| then Some(Str(MARKER)) else None)
      else if was.None? then now.None?
      else now.Some? && NodeOf(now.value) ==
             if was.value.Str? && LooksSecret(was.value.s) then Scalar(Str(MARKER)) else NodeOf(was.value)
    decreases |path|
  {
    if path == [] {
      assert NodeOf(Redact(v)) == if v.Str? && LooksSecret(v.s) then Scalar(Str(MARKER)) else NodeOf(v);
    } else if v.List? && path[0] < |v.items| {
      RedactedAt(v.items[path[0]], path[1..]);
    } else if v.Dict? && path[0] < |v.entries| {
      RedactedAt(v.entries[path[0]].1, path[1..]);
    }
  }

  lemma {:induction false} SameSecretDepth(v: Value, path: seq<nat>)
    requires At(Redact(v), path).Some?
    ensures SecretDepth(Redact(v), path) == SecretDepth(v, path)
    decreases |path|
  {
    if path != [] {
      if v.List? && path[0] < |v.items| {
        SameSecretDepth(v.items[path[0]], path[1..]);
      } else if v.Dict? && path[0] < |v.entries| && !LooksSecret(v.entries[path[0]].0) {
        SameSecretDepth(v.entries[path[0]].1, path[1..]);
      }
    }
  }

  /** Nothing secret is left at any depth: no string leaf looks secret, and whatever stands
      under a secret-looking key is the marker. */
  lemma {:induction false} NothingSecretSurvives(v: Value, path: seq<nat>)
    requires At(Redact(v), path).Some?
    ensures var left := At(Redact(v), path).value;
      && (left.Str? ==> !LooksSecret(left.s))
      && (SecretDepth(Redact(v), path).Some? ==> SecretDepth(Redact(v), path).value == |path| && left == Str(MARKER))
  {
    MarkerIsPublic();
    RedactedAt(v, path);
    SameSecretDepth(v, path);
  }

  // Position by position what was there, with everything secret replaced.
  ghost predicate CleanCopy(from: Value, to: Value) {
    forall path: seq<nat> ::
      var was, now, depth := At(from, path), At(to, path), SecretDepth(from, path);
      if depth.Some? then now == (if depth.value == |path| then Some(Str("[REDACTED]")) else None)
      else if was.None? then now.None?
      else
        && now.Some?
        && (now.value.Str? ==> !LooksSecret(now.value.s))
        && NodeOf(now.value) ==
             if was.value.Str? && LooksSecret(was.value.s) then Scalar(Str("[REDACTED]")) else NodeOf(was.value)
  }

  lemma RedactCopies(v: Value)
    ensures CleanCopy(v, Redact(v))
  {
    forall path: seq<nat> {
      RedactedAt(v, path);
    }
    forall path: seq<nat> | At(Redact(v), path).Some? {
      NothingSecretSurvives(v, path);
    }
  }

  // redact on a bare string
  function RedactText(s: string): string {
    if LooksSecret(s) then MARKER else s
  }
}
