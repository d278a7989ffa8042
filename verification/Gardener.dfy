/** Gardener kubeconfig identifiers: building them and taking them apart. */
module Gardener {
  import opened Lists
  import opened Text

  datatype Resource = Shoot | Seed

  datatype Identifier = Identifier(landscape: string, resource: Resource, name: string,
                                   namespace: string, project: string)

  function SeedIdentifier(landscape: string, seed: string): string {
    landscape + "--seed--" + seed
  }

  function ShootIdentifier(landscape: string, project: string, shoot: string): string {
    landscape + "--shoot--" + project + "--" + shoot
  }

  /** The garden project lives in namespace `garden`, any other in `garden-<project>`. */
  function NamespaceOfProject(project: string): string {
    if project == "garden" then "garden" else "garden-" + project
  }

  /** None is the error result. */
  function ParseIdentifier(path: string): Option<Identifier> {
    var split := Split(path, "--");
    if |split| == 4 then
      if !Contains(path, "shoot") then None
      else if split[2] != "garden" then
        Some(Identifier(split[0], Shoot, split[3], "garden-" + split[2], split[2]))
      else Some(Identifier(split[0], Shoot, split[3], "garden", "garden"))
    else if |split| == 3 then
      if !Contains(path, "seed") then None
      else Some(Identifier(split[0], Seed, split[2], "garden", "garden"))
    else None
  }

  lemma JoinCons(head: string, rest: seq<string>, sep: string)
    requires rest != []
    ensures Join([head] + rest, sep) == head + sep + Join(rest, sep)
  {
    assert ([head] + rest)[1..] == rest;
  }

  lemma ThreeParts(a: string, b: string, c: string)
    ensures Join([a, b, c], "--") == a + "--" + b + "--" + c
  {
    assert [a, b, c] == [a] + ([b] + [c]);
    JoinCons(b, [c], "--");
    JoinCons(a, [b] + [c], "--");
    assert a + "--" + (b + "--" + c) == a + "--" + b + "--" + c;
  }

  lemma FourParts(a: string, b: string, c: string, d: string)
    ensures Join([a, b, c, d], "--") == a + "--" + b + "--" + c + "--" + d
  {
    assert [a, b, c, d] == [a] + [b, c, d];
    JoinCons(a, [b, c, d], "--");
    ThreeParts(b, c, d);
    assert a + "--" + (b + "--" + c + "--" + d) == a + "--" + b + "--" + c + "--" + d;
  }

  lemma ShootIsJoin(landscape: string, project: string, shoot: string)
    ensures ShootIdentifier(landscape, project, shoot) == Join([landscape, "shoot", project, shoot], "--")
    ensures Contains(ShootIdentifier(landscape, project, shoot), "shoot")
  {
    FourParts(landscape, "shoot", project, shoot);
    var s := ShootIdentifier(landscape, project, shoot);
    assert s == landscape + "--" + ("shoot" + "--" + (project + "--" + shoot));
    assert OccursAt(s, "shoot", |landscape| + 2);
  }

  lemma SeedIsJoin(landscape: string, seed: string)
    ensures SeedIdentifier(landscape, seed) == Join([landscape, "seed", seed], "--")
    ensures Contains(SeedIdentifier(landscape, seed), "seed")
  {
    ThreeParts(landscape, "seed", seed);
    var s := SeedIdentifier(landscape, seed);
    assert s == landscape + "--" + ("seed" + "--" + seed);
    assert OccursAt(s, "seed", |landscape| + 2);
  }

  /** Parsing gives back a shoot's coordinates, with the derived namespace, exactly when the parts are clean. */
  lemma ParseShoot(landscape: string, project: string, shoot: string)
    ensures ParseIdentifier(ShootIdentifier(landscape, project, shoot))
              == Some(Identifier(landscape, Shoot, shoot, NamespaceOfProject(project), project))
            <==> Clean([landscape, "shoot", project, shoot], '-')
  {
    var parts := [landscape, "shoot", project, shoot];
    var path := ShootIdentifier(landscape, project, shoot);
    ShootIsJoin(landscape, project, shoot);
    SplitJoin(parts, '-');
    assert ['-', '-'] == "--";
    var split := Split(path, "--");
    if ParseIdentifier(path) == Some(Identifier(landscape, Shoot, shoot, NamespaceOfProject(project), project)) {
      JoinSplit(path, "--");
      assert split == [landscape, split[1], project, shoot];
      ShapeOfFour(landscape, split[1], "shoot", project, shoot);
    }
  }

  /** With the other three parts fixed, the joined text determines the second one. */
  lemma ShapeOfFour(a: string, x: string, y: string, c: string, d: string)
    requires Join([a, x, c, d], "--") == Join([a, y, c, d], "--")
    ensures x == y
  {
    FourParts(a, x, c, d);
    FourParts(a, y, c, d);
    var s := Join([a, x, c, d], "--");
    assert |x| == |y|;
    assert s[|a| + 2..|a| + 2 + |x|] == x;
    assert s[|a| + 2..|a| + 2 + |y|] == y;
  }

  /** The same for seeds, which always live in the garden project. */
  lemma ParseSeed(landscape: string, seed: string)
    ensures ParseIdentifier(SeedIdentifier(landscape, seed))
              == Some(Identifier(landscape, Seed, seed, "garden", "garden"))
            <==> Clean([landscape, "seed", seed], '-')
  {
    var parts := [landscape, "seed", seed];
    var path := SeedIdentifier(landscape, seed);
    SeedIsJoin(landscape, seed);
    SplitJoin(parts, '-');
    assert ['-', '-'] == "--";
    var split := Split(path, "--");
    if ParseIdentifier(path) == Some(Identifier(landscape, Seed, seed, "garden", "garden")) {
      JoinSplit(path, "--");
      assert split == [landscape, split[1], seed];
      ShapeOfThree(landscape, split[1], "seed", seed);
    }
  }

  lemma ShapeOfThree(a: string, x: string, y: string, c: string)
    requires Join([a, x, c], "--") == Join([a, y, c], "--")
    ensures x == y
  {
    ThreeParts(a, x, c);
    ThreeParts(a, y, c);
    var s := Join([a, x, c], "--");
    assert |x| == |y|;
    assert s[|a| + 2..|a| + 2 + |x|] == x;
    assert s[|a| + 2..|a| + 2 + |y|] == y;
  }
}
