/** Which authentication mechanism an identity allows for a request: the check
    that filters a space-separated list of mechanisms. */
module MechanismFilter {

  type MethodMap = map<string, seq<string>>

  /** QString::split on a blank, empty parts skipped; `word` is the part read so far. */
  function Words(s: string, word: string): (words: seq<string>)
    requires IsPart(word)
    ensures forall i :: 0 <= i < |words| ==> IsWord(words[i])
  {
    if s == [] then Flush(word)
    else if s[0] == ' ' then Flush(word) + Words(s[1..], [])
    else Words(s[1..], word + [s[0]])
  }

  function Flush(word: string): seq<string> {
    if word == [] then [] else [word]
  }

  predicate IsPart(word: string) {
    ' ' !in word
  }

  predicate IsWord(word: string) {
    IsPart(word) && word != []
  }

  function Split(s: string): seq<string> {
    Words(s, [])
  }

  function Join(words: seq<string>): string {
    if words == [] then []
    else if |words| == 1 then words[0]
    else words[0] + " " + Join(words[1..])
  }

  lemma {:induction false} ReadWord(w: string, rest: string, word: string)
    requires IsPart(w) && IsPart(word)
    ensures Words(w + rest, word) == Words(rest, word + w)
    decreases |w|
  {
    if w == [] {
      assert w + rest == rest && word + w == word;
    } else {
      assert (w + rest)[0] == w[0] && (w + rest)[1..] == w[1..] + rest;
      assert w[0] in w;
      ReadWord(w[1..], rest, word + [w[0]]);
      assert word + w == word + [w[0]] + w[1..];
    }
  }

  /** Joining words and splitting again gives the words back. */
  lemma {:induction false} SplitUndoesJoin(words: seq<string>)
    requires forall i :: 0 <= i < |words| ==> IsWord(words[i])
    ensures Split(Join(words)) == words
  {
    if |words| == 1 {
      ReadWord(words[0], [], []);
      assert words[0] + [] == words[0] && [] + words[0] == words[0];
    } else if |words| > 1 {
      var tail := Join(words[1..]);
      SplitUndoesJoin(words[1..]);
      assert words[0] + " " + tail == words[0] + (" " + tail);
      ReadWord(words[0], " " + tail, []);
      assert [] + words[0] == words[0];
      assert (" " + tail)[0] == ' ' && (" " + tail)[1..] == tail;
      assert words == [words[0]] + words[1..];
    }
  }

  /** The requested parts that are allowed, in the order of the request. */
  function Kept(parts: seq<string>, allowed: seq<string>): seq<string> {
    if parts == [] then []
    else (if parts[0] in allowed then [parts[0]] else []) + Kept(parts[1..], allowed)
  }

  lemma {:induction false} KeptMembers(parts: seq<string>, allowed: seq<string>, p: string)
    ensures p in Kept(parts, allowed) <==> p in parts && p in allowed
  {
    if parts != [] {
      KeptMembers(parts[1..], allowed, p);
      assert parts == [parts[0]] + parts[1..];
    }
  }

  /** `sub` comes from `all` by leaving elements out. */
  predicate Subsequence(sub: seq<string>, all: seq<string>) {
    sub == [] ||
    (all != [] && ((sub[0] == all[0] && Subsequence(sub[1..], all[1..])) || Subsequence(sub, all[1..])))
  }

  lemma {:induction false} KeptIsSubsequence(parts: seq<string>, allowed: seq<string>)
    ensures Subsequence(Kept(parts, allowed), parts)
  {
    if parts != [] {
      KeptIsSubsequence(parts[1..], allowed);
      var rest := Kept(parts[1..], allowed);
      if parts[0] in allowed {
        assert ([parts[0]] + rest)[1..] == rest;
      } else {
        assert Kept(parts, allowed) == [] + rest == rest;
      }
    }
  }

  lemma {:induction false} KeepingAll(parts: seq<string>, allowed: seq<string>)
    requires forall i :: 0 <= i < |parts| ==> parts[i] in allowed
    ensures Kept(parts, allowed) == parts
  {
    if parts != [] {
      KeepingAll(parts[1..], allowed);
      assert parts == [parts[0]] + parts[1..];
    }
  }

  /** The verdict and the value left in the output parameter. */
  datatype Verdict = Verdict(ok: bool, allowedMechanism: string)

  function Check(methods: MethodMap, name: string, mechanism: string, output: string): Verdict {
    if methods == map[] then Verdict(true, output)
    else if name !in methods then Verdict(false, output)
    else if methods[name] == [] then Verdict(true, output)
    else if mechanism in methods[name] then Verdict(true, mechanism)
    else
      var parts := Split(mechanism);
      if |parts| <= 1 || Kept(parts, methods[name]) == [] then Verdict(false, output)
      else Verdict(true, Join(Kept(parts, methods[name])))
  }

  method CheckMethodAndMechanism(methods: MethodMap, name: string, mechanism: string, output: string)
    returns (ok: bool, allowedMechanism: string)
    ensures Verdict(ok, allowedMechanism) == Check(methods, name, mechanism, output)
  {
    allowedMechanism := output;
    if methods == map[] { return true, output; }
    if name !in methods { return false, output; }
    var mechs := methods[name];
    if mechs == [] { return true, output; }
    if mechanism in mechs { return true, mechanism; }
    var mechanisms := Split(mechanism);
    if |mechanisms| <= 1 { return false, output; }
    var allowedMechanisms := Filter(mechanisms, mechs);
    if allowedMechanisms == [] { return false, output; }
    return true, Join(allowedMechanisms);
  }

  /** The loop over the requested parts. */
  method Filter(mechanisms: seq<string>, mechs: seq<string>) returns (allowedMechanisms: seq<string>)
    ensures allowedMechanisms == Kept(mechanisms, mechs)
  {
    allowedMechanisms := [];
    for i := 0 to |mechanisms|
      invariant Kept(mechanisms, mechs) == allowedMechanisms + Kept(mechanisms[i..], mechs)
    {
      assert mechanisms[i..][1..] == mechanisms[i + 1..];
      if mechanisms[i] in mechs {
        allowedMechanisms := allowedMechanisms + [mechanisms[i]];
      }
    }
  }

  /** When a mechanism list applies, an accepted result is an allowed mechanism,
      or a blank-joined, order-preserving subsequence of the request that holds
      exactly its allowed parts. */
  lemma AcceptedIsAllowed(methods: MethodMap, name: string, mechanism: string, output: string, p: string)
    requires name in methods && methods[name] != []
    requires Check(methods, name, mechanism, output).ok
    ensures var r, mechs, parts := Check(methods, name, mechanism, output).allowedMechanism, methods[name],
            Split(mechanism);
            || (r in mechs && r == mechanism)
            || (&& Split(r) != [] && r == Join(Split(r)) && Subsequence(Split(r), parts)
                && (p in Split(r) <==> p in parts && p in mechs))
  {
    var mechs, parts := methods[name], Split(mechanism);
    if mechanism !in mechs {
      KeptMembers(parts, mechs, p);
      KeptAreWords(parts, mechs);
      KeptIsSubsequence(parts, mechs);
      SplitUndoesJoin(Kept(parts, mechs));
    }
  }

  lemma {:induction false} KeptAreWords(parts: seq<string>, mechs: seq<string>)
    requires forall i :: 0 <= i < |parts| ==> IsWord(parts[i])
    ensures forall i :: 0 <= i < |Kept(parts, mechs)| ==> IsWord(Kept(parts, mechs)[i])
  {
    if parts != [] { KeptAreWords(parts[1..], mechs); }
  }

  /** Checking an accepted result again accepts it unchanged, when the output
      parameter is initialised to the request as the caller does. */
  lemma RecheckIsIdempotent(methods: MethodMap, name: string, mechanism: string)
    requires Check(methods, name, mechanism, mechanism).ok
    ensures var r := Check(methods, name, mechanism, mechanism).allowedMechanism;
            Check(methods, name, r, r) == Verdict(true, r)
  {
    if name in methods && methods[name] != [] && mechanism !in methods[name] {
      var mechs, parts := methods[name], Split(mechanism);
      var kept := Kept(parts, mechs);
      KeptAreWords(parts, mechs);
      SplitUndoesJoin(kept);
      forall i | 0 <= i < |kept|
        ensures kept[i] in mechs
      {
        KeptMembers(parts, mechs, kept[i]);
      }
      KeepingAll(kept, mechs);
    }
  }

  /** Exactly which requests pass. A single mechanism padded with blanks does not,
      although it names an allowed one. The output parameter is left alone when the
      request is refused or no mechanism list applies. */
  lemma AcceptedExactlyWhen(methods: MethodMap, name: string, mechanism: string, output: string)
    ensures Check(methods, name, mechanism, output).ok <==>
            || methods == map[]
            || (name in methods &&
                  (|| methods[name] == []
                   || mechanism in methods[name]
                   || (|Split(mechanism)| >= 2 && exists p :: p in Split(mechanism) && p in methods[name])))
    ensures var v := Check(methods, name, mechanism, output);
            !v.ok || methods == map[] || methods[name] == [] ==> v.allowedMechanism == output
  {
    if name in methods {
      var parts, mechs := Split(mechanism), methods[name];
      var kept := Kept(parts, mechs);
      if kept != [] {
        KeptMembers(parts, mechs, kept[0]);
      }
      if p :| p in parts && p in mechs { KeptMembers(parts, mechs, p); }
    }
  }
}
