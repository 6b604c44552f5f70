// Lexical path resolution inside a workspace: filepath.Clean and Join on absolute paths,
// Workspace.Resolve, and the relative paths that checkpoints store.
module Paths {
  import opened Base
  import opened Text

  // The components of an absolute path; [] is "/".
  type Path = seq<string>

  predicate PlainName(c: string) { c != "" && c != "." && c != ".." && '/' !in c }

  predicate Plain(p: Path) { forall c :: c in p ==> PlainName(c) }

  // Clean on the components of a rooted path: drop "" and ".", let ".." pop.
  function Reduce(parts: seq<string>, stack: Path): Path
    decreases |parts|
  {
    if parts == [] then stack
    else if parts[0] == "" || parts[0] == "." then Reduce(parts[1..], stack)
    else if parts[0] == ".." then Reduce(parts[1..], if stack == [] then [] else stack[..|stack| - 1])
    else Reduce(parts[1..], stack + [parts[0]])
  }

  function Components(s: string): Path { Reduce(Split(s, '/'), []) }

  function Render(p: Path): string { "/" + Join(p, '/') }

  // filepath.Clean of an absolute path.
  function Clean(s: string): string { Render(Components(s)) }

  predicate IsAbs(s: string) { s != "" && s[0] == '/' }

  // Workspace.Resolve.
  function Resolve(root: string, rel: string): Result<string, string> {
    if rel == "" then Err("path is required")
    else
      var joined := if IsAbs(rel) then Clean(rel) else Clean(root + "/" + rel);
      var path := Clean(joined);
      var base := Clean(root);
      if path != base && !HasPrefix(path, base + "/") then Err("path escapes workspace: " + rel)
      else Ok(path)
  }

  // filepath.Rel of a path inside the root, with slashes.
  function RelativePath(root: Path, p: Path): string {
    if |p| <= |root| then "." else Join(p[|root|..], '/')
  }

  lemma {:induction false} ReduceConcat(xs: seq<string>, ys: seq<string>, stack: Path)
    ensures Reduce(xs + ys, stack) == Reduce(ys, Reduce(xs, stack))
    decreases |xs|
  {
    if xs == [] {
      assert xs + ys == ys;
    } else {
      assert (xs + ys)[1..] == xs[1..] + ys;
      var stack' := if xs[0] == "" || xs[0] == "." then stack
                    else if xs[0] == ".." then (if stack == [] then [] else stack[..|stack| - 1])
                    else stack + [xs[0]];
      ReduceConcat(xs[1..], ys, stack');
    }
  }

  // ---- what cleaning does, in terms of the text ----

  // The rest of a path after one of its components.
  predicate Onward(b: string) { b == "" || b[0] == '/' }

  // The components of a path, split after some of its parts.
  lemma AfterParts(a: string, parts: seq<string>, b: string)
    requires parts != [] && Onward(b) && forall c :: c in parts ==> '/' !in c
    ensures Components(a + "/" + Join(parts, '/') + b) ==
              Reduce(if b == "" then [] else Split(b[1..], '/'), Reduce(parts, Components(a)))
  {
    hide Reduce;
    var rest := if b == "" then [] else Split(b[1..], '/');
    var xs, ys := Split(a, '/'), parts + rest;
    SplitJoin(parts, '/');
    SplitConcat(a, Join(parts, '/') + b, '/');
    assert a + ['/'] + (Join(parts, '/') + b) == a + "/" + Join(parts, '/') + b;
    if b == "" {
      assert Join(parts, '/') + b == Join(parts, '/') && ys == parts;
    } else {
      SplitConcat(Join(parts, '/'), b[1..], '/');
      assert Join(parts, '/') + ['/'] + b[1..] == Join(parts, '/') + b;
    }
    ReduceConcat(xs, ys, []);
    ReduceConcat(parts, rest, Components(a));
  }

  // Parts that leave the components of a alone vanish after it.
  lemma PartsVanish(a: string, parts: seq<string>, text: string, b: string)
    requires parts != [] && Onward(b) && (forall c :: c in parts ==> '/' !in c) && text == Join(parts, '/')
    requires Reduce(parts, Components(a)) == Components(a)
    ensures Components(a + "/" + text + b) == Components(a + b)
  {
    hide Reduce;
    AfterParts(a, parts, b);
    if b == "" {
      assert a + b == a;
      ReduceConcat(Split(a, '/'), [], []);
      assert Split(a, '/') + [] == Split(a, '/');
    } else {
      ComponentsBelow(a, b[1..]);
      assert a + "/" + b[1..] == a + b;
    }
  }

  // An empty component and "." vanish wherever they stand, a name followed by ".." vanishes
  // with it, ".." directly below "/" vanishes, and any other name is one more component.
  lemma CleaningRules(a: string, b: string, c: string)
    requires Onward(b) && PlainName(c)
    ensures Components(a + "/" + b) == Components(a + b)
    ensures Components(a + "/." + b) == Components(a + b)
    ensures Components(a + "/" + c + "/.." + b) == Components(a + b)
    ensures Components("/.." + b) == Components(b)
    ensures Components(a + "/" + c) == Components(a) + [c]
    ensures Components("") == []
  {
    hide Reduce, Components;
    assert Components("") == [] by { NoComponents(); }
    assert Components(a + "/" + b) == Components(a + b) by {
      OneStep("", Components(a));
      PartsVanish(a, [""], "", b);
      assert a + "/" + "" + b == a + "/" + b;
    }
    assert Components(a + "/." + b) == Components(a + b) by {
      OneStep(".", Components(a));
      PartsVanish(a, ["."], ".", b);
      assert a + "/" + "." + b == a + "/." + b;
    }
    assert Components(a + "/" + c + "/.." + b) == Components(a + b) by {
      UpAgain(c, Components(a));
      PartsVanish(a, [c, ".."], c + "/..", b);
      assert a + "/" + (c + "/..") + b == a + "/" + c + "/.." + b;
    }
    assert Components("/.." + b) == Components(b) by {
      NoComponents();
      OneStep("..", []);
      PartsVanish("", [".."], "..", b);
      assert "" + "/" + ".." + b == "/.." + b && "" + b == b;
    }
    assert Components(a + "/" + c) == Components(a) + [c] by {
      OneStep(c, Components(a));
      SplitSimple(c, '/');
      ComponentsBelow(a, c);
    }
  }

  lemma NoComponents()
    ensures Components("") == []
  {
    OneStep("", []);
  }

  lemma OneStep(part: string, stack: Path)
    ensures part == "" || part == "." ==> Reduce([part], stack) == stack
    ensures part == ".." ==> Reduce([part], stack) == if stack == [] then [] else stack[..|stack| - 1]
    ensures PlainName(part) ==> Reduce([part], stack) == stack + [part]
  {
    assert [part][1..] == [];
  }

  lemma UpAgain(c: string, stack: Path)
    requires PlainName(c)
    ensures Reduce([c, ".."], stack) == stack && [c, ".."] == [c] + [".."] && Join([c, ".."], '/') == c + "/.."
  {
    ReduceConcat([c], [".."], stack);
    OneStep(c, stack);
    OneStep("..", stack + [c]);
    assert [c, ".."][1..] == [".."];
  }

  lemma {:induction false} ReducePlain(p: Path, stack: Path)
    requires Plain(p)
    ensures Reduce(p, stack) == stack + p
    decreases |p|
  {
    if p != [] {
      assert PlainName(p[0]);
      ReducePlain(p[1..], stack + [p[0]]);
      assert stack + [p[0]] + p[1..] == stack + p;
    }
  }

  lemma {:induction false} ReduceIsPlain(parts: seq<string>, stack: Path)
    requires Plain(stack) && forall c :: c in parts ==> '/' !in c
    ensures Plain(Reduce(parts, stack))
    decreases |parts|
  {
    if parts != [] {
      var stack' := if parts[0] == "" || parts[0] == "." then stack
                    else if parts[0] == ".." then (if stack == [] then [] else stack[..|stack| - 1])
                    else stack + [parts[0]];
      assert Plain(stack');
      ReduceIsPlain(parts[1..], stack');
    }
  }

  lemma ComponentsPlain(s: string)
    ensures Plain(Components(s))
  {
    ReduceIsPlain(Split(s, '/'), []);
  }

  // Rendering a plain path and reading its components back.
  lemma ComponentsOfRender(p: Path)
    requires Plain(p)
    ensures Components(Render(p)) == p
  {
    SplitConcat("", Join(p, '/'), '/');
    assert "" + ['/'] + Join(p, '/') == Render(p);
    if p == [] {
      assert Split(Render(p), '/') == ["", ""];
      ReduceConcat([""], [""], []);
    } else {
      SplitJoin(p, '/');
      ReduceConcat([""], p, []);
      ReducePlain(p, []);
    }
  }

  lemma CleanIsIdempotent(s: string)
    ensures Clean(Clean(s)) == Clean(s)
  {
    ComponentsPlain(s);
    ComponentsOfRender(Components(s));
  }

  lemma RenderInjective(p: Path, q: Path)
    requires Plain(p) && Plain(q) && Render(p) == Render(q)
    ensures p == q
  {
    ComponentsOfRender(p);
    ComponentsOfRender(q);
  }

  // The components of a path below another one.
  lemma ComponentsBelow(base: string, rel: string)
    ensures Components(base + "/" + rel) == Reduce(Split(rel, '/'), Components(base))
  {
    SplitConcat(base, rel, '/');
    ReduceConcat(Split(base, '/'), Split(rel, '/'), []);
  }

  lemma JoinStart(p: Path)
    requires Plain(p)
    ensures p != [] ==> Join(p, '/') != "" && Join(p, '/')[0] != '/'
  {
    if p != [] {
      assert PlainName(p[0]);
    }
  }

  // The string prefix test on cleaned paths is the component prefix test, except that
  // nothing is below "/" in the string test.
  lemma PrefixTest(base: Path, p: Path)
    requires Plain(base) && Plain(p)
    ensures HasPrefix(Render(p), Render(base) + "/") <==> base != [] && base < p
  {
    if base != [] && base < p {
      JoinConcat(base, p[|base|..], '/');
      assert base + p[|base|..] == p;
    }
    if HasPrefix(Render(p), Render(base) + "/") {
      var rest := Render(p)[|Render(base)| + 1..];
      assert Render(p) == Render(base) + "/" + rest;
      if base == [] {
        assert Render(p)[1] == '/';
        JoinStart(p);
        assert false;
      } else {
        SplitConcat(Render(base), rest, '/');
        SplitRender(base);
        assert p == [] ==> |Render(p)| == 1;
        SplitRender(p);
        assert [""] + p == [""] + base + Split(rest, '/');
        assert p == ([""] + p)[1..] == (base + Split(rest, '/'));
      }
    }
  }

  lemma SplitRender(p: Path)
    requires Plain(p) && p != []
    ensures Split(Render(p), '/') == [""] + p
  {
    SplitConcat("", Join(p, '/'), '/');
    assert "" + ['/'] + Join(p, '/') == Render(p);
    SplitJoin(p, '/');
  }

  // Where a caller's path points, before the escape test.
  function Target(root: string, rel: string): Path {
    if IsAbs(rel) then Components(rel) else Components(root + "/" + rel)
  }

  // Resolve succeeds exactly when the normalised path extends the root's components (and,
  // for the root "/", only when it is "/" itself), and then returns that path.
  lemma ResolveExactly(root: string, rel: string)
    ensures Resolve(root, rel).Ok? <==>
              rel != "" && Components(root) <= Target(root, rel) && (Components(root) == [] ==> Target(root, rel) == [])
    ensures Resolve(root, rel).Ok? ==> Resolve(root, rel).value == Render(Target(root, rel))
    ensures Plain(Target(root, rel)) && Plain(Components(root))
  {
    var base, p := Components(root), Target(root, rel);
    ComponentsPlain(root);
    ComponentsPlain(rel);
    ComponentsPlain(root + "/" + rel);
    ComponentsOfRender(p);
    ComponentsOfRender(base);
    PrefixTest(base, p);
    assert Clean(Render(p)) == Render(p);
    if Render(p) == Render(base) {
      RenderInjective(p, base);
    }
    if rel != "" {
      assert Resolve(root, rel) == if Render(p) != Render(base) && !HasPrefix(Render(p), Render(base) + "/")
                                   then Err("path escapes workspace: " + rel) else Ok(Render(p));
      assert base <= p <==> base == p || base < p;
    }
  }

  // Resolving a resolved path changes nothing, ...
  lemma ResolveIsIdempotent(root: string, rel: string)
    requires Resolve(root, rel).Ok?
    ensures Resolve(root, Resolve(root, rel).value) == Resolve(root, rel)
  {
    ResolveExactly(root, rel);
    var path := Resolve(root, rel).value;
    ComponentsOfRender(Target(root, rel));
    ResolveExactly(root, path);
  }

  // ... and resolving the relative path of a path inside the root gives that path back.
  lemma ResolveRelative(root: string, p: Path)
    requires Plain(p) && Components(root) <= p && Components(root) != []
    ensures Target(root, RelativePath(Components(root), p)) == p
    ensures Resolve(root, RelativePath(Components(root), p)) == Ok(Render(p))
  {
    var base := Components(root);
    var rel := RelativePath(base, p);
    ComponentsBelow(root, rel);
    if p == base {
      SplitSimple(rel, '/');
      assert Reduce(["."], base) == base;
    } else {
      var rest := p[|base|..];
      assert Plain(rest);
      SplitJoin(rest, '/');
      ReducePlain(rest, base);
      assert base + rest == p;
      JoinStart(rest);
    }
    ResolveExactly(root, rel);
  }

  // ---- leaving the root ----

  function Ups(n: nat): seq<string> { seq(n, _ => "..") }

  // What n steps up leave of a path; "/" is its own parent.
  function Climbed(p: Path, n: nat): Path { if n < |p| then p[..|p| - n] else [] }

  lemma {:induction false} ReduceUps(n: nat, stack: Path)
    ensures Reduce(Ups(n), stack) == Climbed(stack, n)
  {
    if n > 0 {
      var next := if stack == [] then [] else stack[..|stack| - 1];
      assert Ups(n)[0] == ".." && Ups(n)[1..] == Ups(n - 1);
      ReduceUps(n - 1, next);
      assert Climbed(next, n - 1) == Climbed(stack, n);
    }
  }

  // A relative path that climbs n steps and then names some components is inside the root
  // exactly when those names first lead back through all that was climbed out of.
  lemma ClimbExactly(root: string, n: nat, names: Path)
    requires Plain(names) && n + |names| > 0
    ensures var rel, base := Join(Ups(n) + names, '/'), Components(root);
            var kept := Climbed(base, n);
            && Target(root, rel) == kept + names
            && (Resolve(root, rel).Ok? <==> if base == [] then names == [] else base[|kept|..] <= names)
            && (Resolve(root, rel).Ok? ==> Resolve(root, rel).value == Render(kept + names))
  {
    hide Reduce, Resolve, Join, Split, Components, Climbed, IsAbs;
    var parts, base := Ups(n) + names, Components(root);
    var rel, kept := Join(parts, '/'), Climbed(base, n);
    UpsThenNames(n, names);
    RelativeStart(parts);
    SplitJoin(parts, '/');
    ComponentsBelow(root, rel);
    ReduceConcat(Ups(n), names, base);
    ReduceUps(n, base);
    ReducePlain(names, kept);
    ResolveExactly(root, rel);
    ClimbedIsPrefix(base, n);
    PrefixOfExtension(base, |kept|, names);
    assert base == [] ==> kept + names == names;
  }

  lemma UpsThenNames(n: nat, names: Path)
    requires Plain(names) && n + |names| > 0
    ensures var parts := Ups(n) + names; parts != [] && parts[0] != "" && forall c :: c in parts ==> '/' !in c
  {
    var parts := Ups(n) + names;
    forall c | c in parts ensures c != "" && '/' !in c {
      assert c in names ==> PlainName(c);
    }
    assert parts[0] in parts;
  }

  lemma ClimbedIsPrefix(p: Path, n: nat)
    ensures Climbed(p, n) <= p && Climbed(p, n) == p[..|Climbed(p, n)|]
    ensures p == [] ==> Climbed(p, n) == []
  {
  }

  lemma PrefixOfExtension(base: Path, k: nat, names: Path)
    requires k <= |base|
    ensures base <= base[..k] + names <==> base[k..] <= names
  {
    assert base == base[..k] + base[k..];
    if base <= base[..k] + names {
      assert base[k..] == (base[..k] + names)[k..|base|] == names[..|base| - k];
    }
  }

  lemma RelativeStart(parts: seq<string>)
    requires parts != [] && parts[0] != "" && '/' !in parts[0]
    ensures Join(parts, '/') != "" && !IsAbs(Join(parts, '/'))
  {
    assert parts[0][0] in parts[0];
    assert Join(parts, '/')[0] == parts[0][0];
  }

  // One step up and over leaves the root, unless it leads straight back into it.
  lemma UpAndOver(root: string, name: string)
    requires PlainName(name)
    ensures var base := Components(root);
            Resolve(root, "../" + name).Ok? <==> base != [] && name == base[|base| - 1]
  {
    hide Resolve, Components;
    var base := Components(root);
    assert Ups(1) + [name] == ["..", name] && ["..", name][1..] == [name];
    assert Join(["..", name], '/') == ".." + "/" + name == "../" + name;
    ClimbExactly(root, 1, [name]);
    if base != [] {
      assert base[|Climbed(base, 1)|..] == [base[|base| - 1]];
    }
  }

  // An absolute path means itself, whatever the root is.
  lemma ResolveAbsolute(root: string, p: Path)
    requires Plain(p)
    ensures var base := Components(root);
            && (Resolve(root, Render(p)).Ok? <==> base <= p && (base == [] ==> p == []))
            && (Resolve(root, Render(p)).Ok? ==> Resolve(root, Render(p)).value == Render(p))
  {
    ComponentsOfRender(p);
    ResolveExactly(root, Render(p));
  }
}
