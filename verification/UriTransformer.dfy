/**
 The rewriting of URIs between the client's namespace and the container's
 (api-server/src/language-server/lsp-uri-transformer.ts), on strings and on whole JSON trees.
 */
module UriTransformer {
  import opened Sequences

  datatype Json =
    | Null
    | Bool(b: bool)
    | Number(n: int)  // opaque: never looked into
    | Str(s: string)
    | Arr(items: seq<Json>)
    | Obj(members: seq<Member>)

  datatype Member = Member(key: string, value: Json)

  datatype Direction = ToContainer | ToClient

  const WORKSPACE := "file:///workspace"

  function ContainerBase(root: string): string { "file://" + root }

  /** Where a direction rewrites from and to. */
  function Source(dir: Direction, root: string): string {
    if dir.ToContainer? then WORKSPACE else ContainerBase(root)
  }

  function Target(dir: Direction, root: string): string {
    if dir.ToContainer? then ContainerBase(root) else WORKSPACE
  }

  predicate InNamespace(s: string, base: string) {
    s == base || StartsWith(s, base + "/")
  }

  // ---- One string ----

  /** The replacement text of `String.prototype.replace`, where `$` introduces a pattern. */
  function Substitute(t: string, matched: string, before: string, after: string): string {
    if t == "" then ""
    else if t[0] == '$' && |t| > 1 && t[1] == '$' then "$" + Substitute(t[2..], matched, before, after)
    else if t[0] == '$' && |t| > 1 && t[1] == '&' then matched + Substitute(t[2..], matched, before, after)
    else if t[0] == '$' && |t| > 1 && t[1] == '`' then before + Substitute(t[2..], matched, before, after)
    else if t[0] == '$' && |t| > 1 && t[1] == '\'' then after + Substitute(t[2..], matched, before, after)
    else [t[0]] + Substitute(t[1..], matched, before, after)
  }

  /** `s.replace(pattern, replacement)`: the first occurrence, wherever it is. */
  function Replace(s: string, pattern: string, replacement: string): string {
    var i := IndexOf(s, pattern);
    if i == -1 then s
    else
      var before, after := s[..i], s[i + |pattern|..];
      before + Substitute(replacement, pattern, before, after) + after
  }

  function RewriteString(dir: Direction, root: string, s: string): string {
    var source, target := Source(dir, root), Target(dir, root);
    if StartsWith(s, source + "/") then Replace(s, source + "/", target + "/")
    else if s == source then target
    else s
  }

  /** `replace` reads two characters of the text as a pattern. */
  predicate HasPattern(t: string) { exists i :: 0 <= i < |t| - 1 && t[i] == '$' && t[i + 1] in "$&`'" }

  lemma PatternIsAheadOr(t: string)
    requires t != ""
    ensures HasPattern(t) <==> (|t| > 1 && t[0] == '$' && t[1] in "$&`'") || HasPattern(t[1..])
  {
    assert forall i :: 1 <= i < |t| ==> t[i] == t[1..][i - 1];
    if i :| 0 < i < |t| - 1 && t[i] == '$' && t[i + 1] in "$&`'" {
      assert t[1..][i - 1] == '$' && t[1..][i] in "$&`'";
    }
    if i :| 0 <= i < |t| - 2 && t[1..][i] == '$' && t[1..][i + 1] in "$&`'" {
      assert t[i + 1] == '$' && t[i + 2] in "$&`'";
    }
  }

  lemma {:induction false} PlainSubstitute(t: string, matched: string, before: string, after: string)
    requires !HasPattern(t)
    ensures Substitute(t, matched, before, after) == t
  {
    if t != "" {
      PatternIsAheadOr(t);
      PlainSubstitute(t[1..], matched, before, after);
      assert t == [t[0]] + t[1..];
    }
  }

  function Dollars(t: string): nat {
    if t == "" then 0 else (if t[0] == '$' then 1 else 0) + Dollars(t[1..])
  }

  lemma {:induction false} DollarsAdd(a: string, b: string)
    ensures Dollars(a + b) == Dollars(a) + Dollars(b)
  {
    if a == "" {
      assert a + b == b;
    } else {
      assert (a + b)[0] == a[0] && (a + b)[1..] == a[1..] + b;
      DollarsAdd(a[1..], b);
    }
  }

  lemma {:induction false} NoDollars(t: string)
    requires '$' !in t
    ensures Dollars(t) == 0
  {
    if t != "" {
      NoDollars(t[1..]);
    }
  }

  /** A pattern costs the text a `$`, unless what stands around the match brings one in. */
  lemma {:induction false} PatternsCostDollars(t: string, matched: string, before: string, after: string)
    requires '$' !in matched && '$' !in before && '$' !in after
    ensures Dollars(Substitute(t, matched, before, after)) <= Dollars(t)
    ensures HasPattern(t) ==> Dollars(Substitute(t, matched, before, after)) < Dollars(t)
    decreases |t|
  {
    if t != "" {
      hide HasPattern;
      PatternIsAheadOr(t);
      if |t| > 1 && t[0] == '$' && t[1] in "$&`'" {
        var rest := Substitute(t[2..], matched, before, after);
        PatternsCostDollars(t[2..], matched, before, after);
        assert t[1..][1..] == t[2..];
        NoDollars(matched);
        NoDollars(before);
        NoDollars(after);
        var p := if t[1] == '$' then "$" else if t[1] == '&' then matched else if t[1] == '`' then before else after;
        DollarsAdd(p, rest);
        assert Substitute(t, matched, before, after) == p + rest;
        assert Dollars("$") == 1;
      } else {
        PatternsCostDollars(t[1..], matched, before, after);
        DollarsAdd([t[0]], Substitute(t[1..], matched, before, after));
      }
    }
  }

  /** On a string that starts with the pattern, replacing the first occurrence replaces the prefix. */
  lemma ReplaceIsPrefixReplacement(s: string, pattern: string, replacement: string)
    requires StartsWith(s, pattern) && !HasPattern(replacement)
    ensures Replace(s, pattern, replacement) == replacement + s[|pattern|..]
  {
    assert OccursAt(s, pattern, 0);
    PlainSubstitute(replacement, pattern, s[..0], s[|pattern|..]);
    assert s[..0] + replacement == replacement;
  }

  lemma BaseHasPatternIff(root: string)
    ensures HasPattern("file://" + root + "/") <==> HasPattern(root)
  {
    var t := "file://" + root + "/";
    assert forall i :: 0 <= i < |root| ==> t[i + 7] == root[i];
    if i :| 0 <= i < |root| - 1 && root[i] == '$' && root[i + 1] in "$&`'" {
      assert t[i + 7] == '$' && t[i + 8] in "$&`'";
    }
    if i :| 0 <= i < |t| - 1 && t[i] == '$' && t[i + 1] in "$&`'" {
      assert 7 <= i < |t| - 2 && root[i - 7] == '$' && root[i - 6] in "$&`'";
    }
  }

  /** The rewriting moves the source namespace onto the target namespace and leaves every other string alone. */
  lemma RewriteStringMoves(dir: Direction, root: string, s: string)
    requires dir.ToClient? || !HasPattern(root)
    ensures var source, target := Source(dir, root), Target(dir, root);
            RewriteString(dir, root, s) ==
            if InNamespace(s, source) then target + s[|source|..] else s
  {
    var source, target := Source(dir, root), Target(dir, root);
    BaseHasPatternIff(root);
    if StartsWith(s, source + "/") {
      ReplaceIsPrefixReplacement(s, source + "/", target + "/");
      assert s == source + "/" + s[|source| + 1..];
      assert s[|source|..] == "/" + s[|source| + 1..];
      Associative(target, "/", s[|source| + 1..]);
    } else if s == source {
      assert s[|source|..] == "";
    }
  }

  // ---- The same with the URIs written out ----

  predicate IsTail(rest: string) { rest == "" || rest[0] == '/' }

  lemma TailsAreNamespace(s: string, base: string)
    ensures InNamespace(s, base) <==> exists rest :: IsTail(rest) && s == base + rest
    ensures forall rest :: s == base + rest ==> rest == s[|base|..]
  {
    if InNamespace(s, base) {
      MovedIsInNamespace(s, base, base);
      assert s != base ==> s[|base|] == s[..|base| + 1][|base|] == (base + "/")[|base|];
      assert IsTail(s[|base|..]) && s == base + s[|base|..];
    }
    forall rest | s == base + rest ensures rest == s[|base|..] && (IsTail(rest) ==> InNamespace(s, base)) {
      if IsTail(rest) && rest != "" {
        assert s[..|base| + 1] == base + "/";
      } else if rest == "" {
        assert s == base;
      }
    }
  }

  /** A request's URIs in the workspace go to the session's directory, and a response's come back from there. */
  lemma UriMoves(root: string, rest: string)
    requires IsTail(rest)
    ensures !HasPattern(root) ==>
              RewriteString(ToContainer, root, "file:///workspace" + rest) == "file://" + root + rest
    ensures RewriteString(ToClient, root, "file://" + root + rest) == "file:///workspace" + rest
  {
    TailsAreNamespace("file:///workspace" + rest, "file:///workspace");
    TailsAreNamespace("file://" + root + rest, "file://" + root);
    if !HasPattern(root) {
      RewriteStringMoves(ToContainer, root, "file:///workspace" + rest);
    }
    RewriteStringMoves(ToClient, root, "file://" + root + rest);
  }

  /** `t` is what becomes of `s`. */
  ghost predicate IsImage(dir: Direction, root: string, s: string, t: string) {
    match dir
    case ToContainer =>
      && (forall rest :: IsTail(rest) && s == "file:///workspace" + rest ==> t == "file://" + root + rest)
      && ((forall rest :: IsTail(rest) ==> s != "file:///workspace" + rest) ==> t == s)
    case ToClient =>
      && (forall rest :: IsTail(rest) && s == "file://" + root + rest ==> t == "file:///workspace" + rest)
      && ((forall rest :: IsTail(rest) ==> s != "file://" + root + rest) ==> t == s)
  }

  lemma ImageIsRewritten(dir: Direction, root: string, s: string, t: string)
    requires dir.ToClient? || !HasPattern(root)
    ensures IsImage(dir, root, s, t) <==> t == RewriteString(dir, root, s)
  {
    RewriteStringMoves(dir, root, s);
    TailsAreNamespace(s, Source(dir, root));
  }

  /** A root that holds a pattern sends a request's URIs elsewhere; no other root does. */
  lemma UriMovesIff(root: string, path: string)
    requires '$' !in path
    ensures RewriteString(ToContainer, root, "file:///workspace/" + path) == "file://" + root + "/" + path
            <==> !HasPattern(root)
  {
    var pattern, base, s := "file:///workspace/", "file://" + root + "/", "file:///workspace/" + path;
    assert OccursAt(s, pattern, 0);
    assert s[..0] == "" && s[|pattern|..] == path;
    var replacement := Substitute(base, pattern, "", path);
    assert RewriteString(ToContainer, root, s) == replacement + path;
    BaseHasPatternIff(root);
    if HasPattern(root) {
      PatternsCostDollars(base, pattern, "", path);
      assert replacement != base;
      RightCancel(replacement, base, path);
    } else {
      PlainSubstitute(base, pattern, "", path);
    }
  }

  function Opposite(dir: Direction): Direction {
    if dir.ToContainer? then ToClient else ToContainer
  }

  /** The one family of strings the way back does not restore. */
  predicate Collides(dir: Direction, root: string, s: string) {
    InNamespace(s, Target(dir, root)) && !InNamespace(s, Source(dir, root))
  }

  lemma MovedIsInNamespace(s: string, source: string, target: string)
    requires InNamespace(s, source)
    ensures InNamespace(target + s[|source|..], target)
    ensures (target + s[|source|..])[|target|..] == s[|source|..]
    ensures s == source + s[|source|..]
  {
    if s == source {
      assert target + s[|source|..] == target;
    } else {
      assert s[|source|..][0] == '/' by {
        assert (source + "/")[|source|] == '/' == s[..|source| + 1][|source|];
      }
      assert (target + s[|source|..])[..|target| + 1] == target + "/";
      assert s[..|source| + 1][..|source|] == (source + "/")[..|source|];
    }
  }

  lemma StringRoundTrip(dir: Direction, root: string, s: string)
    requires !HasPattern(root)
    ensures RewriteString(Opposite(dir), root, RewriteString(dir, root, s)) == s <==> !Collides(dir, root, s)
  {
    var source, target := Source(dir, root), Target(dir, root);
    var moved := RewriteString(dir, root, s);
    RewriteStringMoves(dir, root, s);
    RewriteStringMoves(Opposite(dir), root, moved);
    if InNamespace(s, source) {
      MovedIsInNamespace(s, source, target);
    } else if InNamespace(s, target) {
      MovedIsInNamespace(s, target, source);
    }
  }

  // ---- Whole trees ----

  function Rewrite(dir: Direction, root: string, v: Json): Json {
    match v
    case Str(s) => Str(RewriteString(dir, root, s))
    case Arr(items) =>
      Arr(seq(|items|, i requires 0 <= i < |items| => Rewrite(dir, root, items[i])))
    case Obj(members) =>
      Obj(seq(|members|, i requires 0 <= i < |members| =>
        Member(members[i].key, Rewrite(dir, root, members[i].value))))
    case _ => v
  }

  /** No string of the tree collides; keys are not strings of the tree. */
  predicate NoCollision(dir: Direction, root: string, v: Json) {
    match v
    case Str(s) => !Collides(dir, root, s)
    case Arr(items) => forall i :: 0 <= i < |items| ==> NoCollision(dir, root, items[i])
    case Obj(members) => forall i :: 0 <= i < |members| ==> NoCollision(dir, root, members[i].value)
    case _ => true
  }

  /** The response rewriting undoes the request rewriting, and conversely, exactly on trees with no collision. */
  lemma {:induction false} TreeRoundTrip(dir: Direction, root: string, v: Json)
    requires !HasPattern(root)
    ensures Rewrite(Opposite(dir), root, Rewrite(dir, root, v)) == v <==> NoCollision(dir, root, v)
    decreases v
  {
    var back := Rewrite(Opposite(dir), root, Rewrite(dir, root, v));
    match v
    case Str(s) => StringRoundTrip(dir, root, s);
    case Arr(items) =>
      forall i | 0 <= i < |items|
        ensures back.items[i] == items[i] <==> NoCollision(dir, root, items[i])
      {
        TreeRoundTrip(dir, root, items[i]);
      }
      assert back == v <==> forall i :: 0 <= i < |items| ==> back.items[i] == items[i];
    case Obj(members) =>
      forall i | 0 <= i < |members|
        ensures back.members[i] == members[i] <==> NoCollision(dir, root, members[i].value)
      {
        TreeRoundTrip(dir, root, members[i].value);
      }
      assert back == v <==> forall i :: 0 <= i < |members| ==> back.members[i] == members[i];
    case _ =>
  }

  // ---- Where a leaf goes ----

  datatype Hop = Key(key: string) | Index(i: nat)

  function ValueOf(members: seq<Member>, key: string): Option<Json>
    ensures ValueOf(members, key).Some? ==>
              exists i :: 0 <= i < |members| && members[i].value == ValueOf(members, key).value
  {
    if members == [] then None
    else if members[0].key == key then Some(members[0].value)
    else ValueOf(members[1..], key)
  }

  /** The value at the end of a path into the tree. */
  function ValueAt(v: Json, path: seq<Hop>): Option<Json>
    decreases |path|
  {
    if path == [] then Some(v)
    else
      match (v, path[0])
      case (Arr(items), Index(i)) => if i < |items| then ValueAt(items[i], path[1..]) else None
      case (Obj(members), Key(key)) =>
        (match ValueOf(members, key)
         case Some(value) => ValueAt(value, path[1..])
         case None => None)
      case _ => None
  }

  /** Wherever `v` has a string, `r` has that string's image. */
  ghost predicate EveryStringMoves(dir: Direction, root: string, v: Json, r: Json) {
    forall path, s :: ValueAt(v, path) == Some(Str(s)) ==>
      ValueAt(r, path).Some? && ValueAt(r, path).value.Str? && IsImage(dir, root, s, ValueAt(r, path).value.s)
  }

  lemma {:induction false} RewrittenValueOf(dir: Direction, root: string, members: seq<Member>, key: string)
    ensures ValueOf(Rewrite(dir, root, Obj(members)).members, key)
            == match ValueOf(members, key) case Some(value) => Some(Rewrite(dir, root, value)) case None => None
  {
    if members != [] {
      RewrittenValueOf(dir, root, members[1..], key);
      assert Rewrite(dir, root, Obj(members)).members[1..] == Rewrite(dir, root, Obj(members[1..])).members;
    }
  }

  lemma {:induction false} RewrittenValueAt(dir: Direction, root: string, v: Json, path: seq<Hop>)
    ensures ValueAt(Rewrite(dir, root, v), path)
            == match ValueAt(v, path) case Some(w) => Some(Rewrite(dir, root, w)) case None => None
    decreases |path|
  {
    if path != [] {
      match (v, path[0])
      case (Arr(items), Index(i)) =>
        if i < |items| {
          RewrittenValueAt(dir, root, items[i], path[1..]);
        }
      case (Obj(members), Key(key)) =>
        RewrittenValueOf(dir, root, members, key);
        if ValueOf(members, key).Some? {
          RewrittenValueAt(dir, root, ValueOf(members, key).value, path[1..]);
        }
      case _ =>
    }
  }

  lemma StringMovesAt(dir: Direction, root: string, v: Json, path: seq<Hop>, s: string)
    requires dir.ToClient? || !HasPattern(root)
    requires ValueAt(v, path) == Some(Str(s))
    ensures var t := RewriteString(dir, root, s);
            ValueAt(Rewrite(dir, root, v), path) == Some(Str(t)) && IsImage(dir, root, s, t)
  {
    hide ValueAt, IsImage, RewriteString, HasPattern;
    RewrittenValueAt(dir, root, v, path);
    ImageIsRewritten(dir, root, s, RewriteString(dir, root, s));
  }

  lemma StringsMove(dir: Direction, root: string, v: Json)
    requires dir.ToClient? || !HasPattern(root)
    ensures EveryStringMoves(dir, root, v, Rewrite(dir, root, v))
  {
    hide ValueAt, IsImage, RewriteString, HasPattern, Rewrite;
    forall path, s | ValueAt(v, path) == Some(Str(s))
      ensures ValueAt(Rewrite(dir, root, v), path) == Some(Str(RewriteString(dir, root, s)))
      ensures IsImage(dir, root, s, RewriteString(dir, root, s))
    {
      StringMovesAt(dir, root, v, path, s);
    }
  }

  /** The tree with its strings blanked: keys, order, nesting and every other value. */
  function Skeleton(v: Json): Json {
    match v
    case Str(_) => Str("")
    case Arr(items) => Arr(seq(|items|, i requires 0 <= i < |items| => Skeleton(items[i])))
    case Obj(members) =>
      Obj(seq(|members|, i requires 0 <= i < |members| => Member(members[i].key, Skeleton(members[i].value))))
    case _ => v
  }

  lemma {:induction false} RewriteKeepsSkeleton(dir: Direction, root: string, v: Json)
    ensures Skeleton(Rewrite(dir, root, v)) == Skeleton(v)
    decreases v
  {
    match v
    case Arr(items) =>
      forall i | 0 <= i < |items| ensures Skeleton(Rewrite(dir, root, items[i])) == Skeleton(items[i]) {
        RewriteKeepsSkeleton(dir, root, items[i]);
      }
      assert Skeleton(Rewrite(dir, root, v)).items == Skeleton(v).items;
    case Obj(members) =>
      forall i | 0 <= i < |members|
        ensures Skeleton(Rewrite(dir, root, members[i].value)) == Skeleton(members[i].value)
      {
        RewriteKeepsSkeleton(dir, root, members[i].value);
      }
      assert Skeleton(Rewrite(dir, root, v)).members == Skeleton(v).members;
    case _ =>
  }

  /** A tree none of whose strings is a client URI is not changed at all, and only such a tree is. */
  predicate NothingToMove(dir: Direction, root: string, v: Json) {
    match v
    case Str(s) => !InNamespace(s, Source(dir, root))
    case Arr(items) => forall i :: 0 <= i < |items| ==> NothingToMove(dir, root, items[i])
    case Obj(members) => forall i :: 0 <= i < |members| ==> NothingToMove(dir, root, members[i].value)
    case _ => true
  }

  lemma {:induction false} RewriteIsIdentityIff(dir: Direction, root: string, v: Json)
    requires !HasPattern(root) && Source(dir, root) != Target(dir, root)
    ensures Rewrite(dir, root, v) == v <==> NothingToMove(dir, root, v)
    decreases v
  {
    var w := Rewrite(dir, root, v);
    match v
    case Str(s) =>
      RewriteStringMoves(dir, root, s);
      if InNamespace(s, Source(dir, root)) {
        MovedIsInNamespace(s, Source(dir, root), Target(dir, root));
        RightCancel(Target(dir, root), Source(dir, root), s[|Source(dir, root)|..]);
      }
    case Arr(items) =>
      forall i | 0 <= i < |items|
        ensures w.items[i] == items[i] <==> NothingToMove(dir, root, items[i])
      {
        RewriteIsIdentityIff(dir, root, items[i]);
      }
      assert w == v <==> forall i :: 0 <= i < |items| ==> w.items[i] == items[i];
    case Obj(members) =>
      forall i | 0 <= i < |members|
        ensures w.members[i] == members[i] <==> NothingToMove(dir, root, members[i].value)
      {
        RewriteIsIdentityIff(dir, root, members[i].value);
      }
      assert w == v <==> forall i :: 0 <= i < |members| ==> w.members[i] == members[i];
    case _ =>
  }

  // ---- The code's own traversal ----

  /** A JavaScript object never holds a key twice, nor does any object inside it. */
  predicate UniqueKeys(v: Json) {
    match v
    case Arr(items) => forall i :: 0 <= i < |items| ==> UniqueKeys(items[i])
    case Obj(members) =>
      && (forall i, j :: 0 <= i < j < |members| ==> members[i].key != members[j].key)
      && forall i :: 0 <= i < |members| ==> UniqueKeys(members[i].value)
    case _ => true
  }

  lemma {:induction false} RewriteKeepsKeysUnique(dir: Direction, root: string, v: Json)
    requires UniqueKeys(v)
    ensures UniqueKeys(Rewrite(dir, root, v))
    decreases v
  {
    match v
    case Arr(items) =>
      forall i | 0 <= i < |items| ensures UniqueKeys(Rewrite(dir, root, items[i])) {
        RewriteKeepsKeysUnique(dir, root, items[i]);
      }
    case Obj(members) =>
      forall i | 0 <= i < |members| ensures UniqueKeys(Rewrite(dir, root, members[i].value)) {
        RewriteKeepsKeysUnique(dir, root, members[i].value);
      }
    case _ =>
  }

  /** `transformed[key] = value` */
  function Put(members: seq<Member>, key: string, value: Json): (r: seq<Member>)
    ensures Member(key, value) in r
    ensures (forall i :: 0 <= i < |members| ==> members[i].key != key) ==> r == members + [Member(key, value)]
  {
    if members == [] then [Member(key, value)]
    else if members[0].key == key then [Member(key, value)] + members[1..]
    else
      var rest := Put(members[1..], key, value);
      assert forall i :: 0 <= i < |members[1..]| ==> members[1..][i] == members[i + 1];
      [members[0]] + rest
  }

  method TransformUris(dir: Direction, root: string, obj: Json) returns (r: Json)
    requires UniqueKeys(obj)
    ensures r == Rewrite(dir, root, obj) && Skeleton(r) == Skeleton(obj)
    ensures dir.ToClient? || !HasPattern(root) ==> EveryStringMoves(dir, root, obj, r)
    decreases obj
  {
    hide RewriteString, Skeleton, EveryStringMoves, HasPattern;
    RewriteKeepsSkeleton(dir, root, obj);
    if dir.ToClient? || !HasPattern(root) { StringsMove(dir, root, obj); }
    match obj
    case Str(s) =>
      r := Str(RewriteString(dir, root, s));
    case Arr(items) =>
      var mapped: seq<Json> := [];
      for i := 0 to |items|
        invariant mapped == Rewrite(dir, root, obj).items[..i]
      {
        var item := TransformUris(dir, root, items[i]);
        mapped := mapped + [item];
      }
      r := Arr(mapped);
    case Obj(members) =>
      var transformed: seq<Member> := [];
      ghost var target := Rewrite(dir, root, obj).members;
      for i := 0 to |members|
        invariant transformed == target[..i]
      {
        var value := TransformUris(dir, root, members[i].value);
        assert target[i] == Member(members[i].key, value);
        assert forall j :: 0 <= j < i ==> transformed[j].key == members[j].key;
        transformed := Put(transformed, members[i].key, value);
      }
      r := Obj(transformed);
    case _ =>
      r := obj;
  }
}
