/** The runtime classification of stack-frame classes into external
    (library) code and application code of EnhancedExceptionSpanExporter,
    with its memo table.

    What the JVM says about a class name (`Class.forName`, its class loader
    and code-source location) is an input of the model: `Resolution`. */
module Classifier {
  import opened Wrappers
  import opened Text
  import opened Sequences

  /** `EXTERNAL_PACKAGE_PREFIXES`. */
  const ExternalPackagePrefixes: seq<string> := [
    "java.", "javax.", "jakarta.", "jdk.", "sun.", "com.sun.",
    "org.springframework.", "org.apache.", "org.eclipse.", "org.junit.",
    "org.testng.", "org.mockito.", "io.opentelemetry.", "io.netty.",
    "com.google.", "com.fasterxml.", "org.slf4j.", "ch.qos.logback.",
    "org.hibernate.", "org.mongodb.", "redis.clients.", "org.elasticsearch.",
    "com.amazonaws.", "software.amazon.", "com.microsoft.", "org.postgresql.",
    "com.mysql.", "oracle.jdbc.", "org.h2.", "org.jetbrains.", "kotlin.",
    "scala.", "groovy.", "clojure."]

  /** What loading a class name tells: nothing (the class is not found, or
      loading throws), or whether its loader is the bootstrap loader, the
      loader's class name, and the code-source location path when the
      protection domain, code source and location are all present. */
  datatype Resolution =
    | NotFound
    | Resolved(bootstrap: bool, loaderName: string, codeSourcePath: Option<string>)

  /** The answer of one classification layer. */
  datatype Verdict = External | Application | Inconclusive

  predicate HasExternalPrefix(className: string) {
    exists k :: 0 <= k < |ExternalPackagePrefixes| && StartsWith(className, ExternalPackagePrefixes[k])
  }

  predicate HasDependencyFragment(path: string) {
    Contains(path, "/.m2/repository/") || Contains(path, "/.gradle/caches/")
      || Contains(path, "/lib/") || Contains(path, "/libs/")
      || Contains(path, "/dependency/") || Contains(path, "/dependencies/")
  }

  predicate HasBuildOutputFragment(path: string) {
    Contains(path, "/target/classes/") || Contains(path, "/build/classes/")
      || Contains(path, "/out/production/") || Contains(path, "/bin/") || Contains(path, "/src/")
  }

  predicate HasJdkFragment(path: string) {
    Contains(path, "/jre/") || Contains(path, "/jdk/") || Contains(path, "/java/") || Contains(path, "/modules/")
  }

  predicate HasProjectFragment(path: string) {
    Contains(path, "/target/") || Contains(path, "/build/") || Contains(path, "/out/")
  }

  /** The code-source rules, on the lower-cased location path, in the order
      they are tried. */
  function PathVerdict(path: string): Verdict {
    if HasDependencyFragment(path) then External
    else if HasBuildOutputFragment(path) then Application
    else if EndsWith(path, ".jar") && HasJdkFragment(path) then External
    else if EndsWith(path, ".jar") && !HasProjectFragment(path) then External
    else Inconclusive
  }

  predicate IsPlatformLoader(loaderName: string) {
    Contains(loaderName, "ExtClassLoader") || Contains(loaderName, "PlatformClassLoader")
      || Contains(loaderName, "BuiltinClassLoader")
  }

  /** The class-loader and code-source layer. */
  function LoaderVerdict(res: Resolution): Verdict {
    match res
    case NotFound => Inconclusive
    case Resolved(bootstrap, loaderName, path) =>
      if bootstrap || IsPlatformLoader(loaderName) then External
      else if path.None? then Inconclusive
      else PathVerdict(ToLower(path.value))
  }

  /** Names of generated and proxy classes. */
  predicate IsSynthetic(className: string) {
    Contains(className, "$$") || Contains(className, "$Proxy") || Contains(className, "$HibernateProxy")
      || Contains(className, "CGLIB") || Contains(className, "ByteBuddy") || Contains(className, "$auxiliary$")
  }

  /** The name of the enclosing class: everything before the last `$`. */
  function EnclosingClass(className: string): (r: string)
    requires '$' in className
    ensures |r| < |className|
    ensures r == className[..LastIndexOf(className, '$')]
  {
    className[..LastIndexOf(className, '$')]
  }

  /** `performClassification`, with each nested class answered by its
      enclosing class. */
  function Classify(className: string, resolve: string -> Resolution): bool
    decreases |className|
  {
    if HasExternalPrefix(className) then true
    else
      match LoaderVerdict(resolve(className))
      case External => true
      case Application => false
      case Inconclusive =>
        if IsSynthetic(className) then true
        else if '$' in className && !Contains(className, "$$") then Classify(EnclosingClass(className), resolve)
        else false
  }

  /** The names whose classification a call for `className` may record: the
      name itself and, when the nested-class layer applies, those of its
      enclosing class. */
  ghost function Ancestors(className: string, resolve: string -> Resolution): (r: set<string>)
    ensures className in r
    decreases |className|
  {
    if !HasExternalPrefix(className) && LoaderVerdict(resolve(className)).Inconclusive?
       && !IsSynthetic(className) && '$' in className && !Contains(className, "$$")
    then {className} + Ancestors(EnclosingClass(className), resolve)
    else {className}
  }

  // ---------------------------------------------------------------------
  // what the layers guarantee

  /** A name under a listed package is external whatever the JVM says. */
  lemma PrefixDecides(className: string, resolve: string -> Resolution)
    requires HasExternalPrefix(className)
    ensures Classify(className, resolve)
  {
  }

  /** Every name that extends a name under a listed package, such as a class
      nested in it, is also under that package. */
  lemma {:induction false} PrefixExtends(className: string, suffix: string)
    requires HasExternalPrefix(className)
    ensures HasExternalPrefix(className + suffix)
  {
    var k :| 0 <= k < |ExternalPackagePrefixes| && StartsWith(className, ExternalPackagePrefixes[k]);
    var p := ExternalPackagePrefixes[k];
    assert (className + suffix)[..|p|] == className[..|p|];
  }

  /** A decisive loader layer is final: the naming layers are never
      consulted. */
  lemma LoaderDecides(className: string, resolve: string -> Resolution)
    requires !HasExternalPrefix(className)
    requires !LoaderVerdict(resolve(className)).Inconclusive?
    ensures Classify(className, resolve) <==> LoaderVerdict(resolve(className)).External?
  {
  }

  /** The dependency fragments are checked before the build-output ones: a
      path with both is external. */
  lemma DependencyBeforeBuildOutput(path: string)
    requires HasDependencyFragment(path)
    ensures PathVerdict(path) == External
  {
  }

  /** The path rules give `Application` only for a build-output location
      without any dependency fragment. */
  lemma ApplicationPathsAreBuildOutput(path: string)
    ensures PathVerdict(path) == Application <==> !HasDependencyFragment(path) && HasBuildOutputFragment(path)
  {
  }

  /** A location that is not a `.jar` and matches no fragment is
      inconclusive. */
  lemma PlainDirectoryInconclusive(path: string)
    requires !HasDependencyFragment(path) && !HasBuildOutputFragment(path) && !EndsWith(path, ".jar")
    ensures PathVerdict(path) == Inconclusive
  {
  }

  /** Without a decisive prefix or loader, every generated or proxy name is
      external. */
  lemma SyntheticIsExternal(className: string, resolve: string -> Resolution)
    requires LoaderVerdict(resolve(className)).Inconclusive?
    requires IsSynthetic(className)
    ensures Classify(className, resolve)
  {
  }

  /** A nested class that no earlier layer decides is classified as its
      enclosing class is. */
  lemma NestedFollowsEnclosing(className: string, resolve: string -> Resolution)
    requires !HasExternalPrefix(className) && LoaderVerdict(resolve(className)).Inconclusive?
    requires !IsSynthetic(className) && '$' in className
    ensures Classify(className, resolve) == Classify(EnclosingClass(className), resolve)
  {
    assert !Contains(className, "$$");
  }

  /** A plain name that no layer decides is application code. */
  lemma DefaultIsApplication(className: string, resolve: string -> Resolution)
    requires !HasExternalPrefix(className) && LoaderVerdict(resolve(className)).Inconclusive?
    requires !IsSynthetic(className) && '$' !in className
    ensures !Classify(className, resolve)
  {
  }

  /** A layer other than the nested-class one answers "external". */
  predicate Decisive(className: string, resolve: string -> Resolution) {
    HasExternalPrefix(className) || LoaderVerdict(resolve(className)).External? || IsSynthetic(className)
  }

  /** The classification is the verdict of the first name on the chain of
      enclosing classes that some layer decides: when a name is classified
      as external, some name in its ancestry has an external prefix, an
      external loader verdict, or a synthetic name. */
  lemma {:induction false} ExternalHasWitness(className: string, resolve: string -> Resolution)
    requires Classify(className, resolve)
    ensures exists a :: a in Ancestors(className, resolve) && Decisive(a, resolve)
    decreases |className|
  {
    if !HasExternalPrefix(className) && LoaderVerdict(resolve(className)).Inconclusive?
       && !IsSynthetic(className) && '$' in className && !Contains(className, "$$") {
      var parent := EnclosingClass(className);
      ExternalHasWitness(parent, resolve);
      var a :| a in Ancestors(parent, resolve) && Decisive(a, resolve);
      assert a in Ancestors(className, resolve);
    } else {
      assert className in Ancestors(className, resolve);
    }
  }

  /** Strategy 1 of `performClassification`: the loop over the prefix
      list. */
  method MatchesExternalPrefix(name: string) returns (found: bool)
    ensures found <==> HasExternalPrefix(name)
  {
    var i := 0;
    while i < |ExternalPackagePrefixes|
      invariant 0 <= i <= |ExternalPackagePrefixes|
      invariant forall k :: 0 <= k < i ==> !StartsWith(name, ExternalPackagePrefixes[k])
    {
      if StartsWith(name, ExternalPackagePrefixes[i]) {
        return true;
      }
      i := i + 1;
    }
    return false;
  }

  // ---------------------------------------------------------------------
  // the memo table

  /** `classify` answers as `Classify` does under `resolve`. (The trigger
      keeps the definition of `Classify` out of proofs that only use
      `classify`.) */
  ghost predicate IsClassifier(classify: string -> bool, resolve: string -> Resolution) {
    forall className {:trigger Classify(className, resolve)} :: classify(className) == Classify(className, resolve)
  }

  /** The classification `isExternalCode` answers, as a test on class
      names. */
  function ClassifierOf(resolve: string -> Resolution): string -> bool {
    className => Classify(className, resolve)
  }

  /** Every stored answer is the classification of its name, and the stored
      names are exactly those in the log, each logged once. */
  ghost predicate MemoAgrees(cache: map<string, bool>, classified: seq<string>, classify: string -> bool) {
    (forall name :: name in cache ==> cache[name] == classify(name))
    && (forall i :: 0 <= i < |classified| ==> classified[i] in cache)
    && (forall name :: name in cache ==> name in classified)
    && (forall i, j :: 0 <= i < j < |classified| ==> classified[i] != classified[j])
  }

  /** Storing the classification of a name not yet stored, and logging it,
      keeps the table consistent. */
  lemma StoreAgrees(cache: map<string, bool>, classified: seq<string>, classify: string -> bool, name: string)
    requires MemoAgrees(cache, classified, classify) && name !in cache
    ensures MemoAgrees(cache[name := classify(name)], classified + [name], classify)
  {
    assert forall i :: 0 <= i < |classified| ==> classified[i] != name;
  }

  /** `classificationCache` of one exporter. `classified` records, in
      order, every name `performClassification` ran on. */
  class ClassificationCache {
    var cache: map<string, bool>
    ghost var classified: seq<string>
    const resolve: string -> Resolution
    /** The classification the table stores: `Classify` under `resolve`
        (see `Classifies`). */
    ghost const classify: string -> bool

    /** Every stored answer is the classification of its name, and the
        stored names are exactly those classified, each once. */
    ghost predicate Valid()
      reads this
    {
      MemoAgrees(cache, classified, classify)
    }

    /** `classify` is `Classify` under the oracle of this cache. */
    ghost predicate Classifies() {
      IsClassifier(classify, resolve)
    }

    constructor (resolve: string -> Resolution)
      ensures Valid() && Classifies()
      ensures this.resolve == resolve && cache == map[] && classified == []
    {
      this.resolve := resolve;
      classify := ClassifierOf(resolve);
      cache := map[];
      classified := [];
    }

    /** `isExternalCode`: null is external; a stored answer is returned as
        is; otherwise the name is classified once and its answer stored. */
    method IsExternalCode(className: Option<string>) returns (r: bool)
      requires Valid() && Classifies()
      modifies this
      ensures Valid()
      ensures r == (className.None? || classify(className.value))
      ensures className.None? ==> cache == old(cache) && classified == old(classified)
      ensures className.Some? && className.value in old(cache) ==>
        r == old(cache)[className.value] && cache == old(cache) && classified == old(classified)
      ensures className.Some? ==> className.value in cache
      ensures forall name :: name in old(cache) ==> name in cache && cache[name] == old(cache)[name]
      ensures |old(classified)| <= |classified| && classified[..|old(classified)|] == old(classified)
      decreases if className.Some? then |className.value| else 0, 3
    {
      if className.None? {
        return true;
      }
      var name := className.value;
      if name in cache {
        return cache[name];
      }
      r := ClassifyAndStore(name);
    }

    /** A name not yet stored: `performClassification`, then
        `classificationCache.put`. */
    method ClassifyAndStore(name: string) returns (r: bool)
      requires Valid() && Classifies() && name !in cache
      modifies this
      ensures Valid()
      ensures r == classify(name) && name in cache
      ensures forall n :: n in old(cache) ==> n in cache && cache[n] == old(cache)[n]
      ensures forall n :: n in cache && n !in old(cache) ==> |n| <= |name| && n in Ancestors(name, resolve)
      ensures |old(classified)| <= |classified| && classified[..|old(classified)|] == old(classified)
      decreases |name|, 2
    {
      r := PerformClassification(name);
      PrefixSnoc(old(classified), classified, name);
      Store(name, r);
    }

    /** `classificationCache.put` of a freshly classified name. */
    method Store(name: string, r: bool)
      requires Valid() && name !in cache && r == classify(name)
      modifies this
      ensures Valid()
      ensures cache == old(cache)[name := r] && classified == old(classified) + [name]
    {
      StoreAgrees(cache, classified, classify, name);
      cache := cache[name := r];
      classified := classified + [name];
    }

    /** `performClassification`: prefix list, loader oracle, synthetic
        names, enclosing class (through the memo table), default. */
    method PerformClassification(name: string) returns (r: bool)
      requires Valid() && Classifies() && name !in cache
      modifies this
      ensures Valid()
      ensures r == Classify(name, resolve)
      ensures name !in cache
      ensures forall n :: n in old(cache) ==> n in cache && cache[n] == old(cache)[n]
      ensures forall n :: n in cache && n !in old(cache) ==> |n| < |name|
      ensures forall n :: n in cache && n !in old(cache) ==> n in Ancestors(name, resolve)
      ensures |old(classified)| <= |classified| && classified[..|old(classified)|] == old(classified)
      decreases |name|, 1
    {
      var prefixed := MatchesExternalPrefix(name);
      if prefixed {
        return true;
      }
      var verdict := LoaderVerdict(resolve(name));
      if verdict.External? {
        return true;
      } else if verdict.Application? {
        return false;
      }
      if IsSynthetic(name) {
        return true;
      }
      if '$' in name && !Contains(name, "$$") {
        r := ClassifyAsEnclosing(name);
        return;
      }
      return false;
    }

    /** Strategy 5: a nested class is answered by its enclosing class,
        through the memo table. */
    method ClassifyAsEnclosing(name: string) returns (r: bool)
      requires Valid() && Classifies() && name !in cache
      requires !HasExternalPrefix(name) && LoaderVerdict(resolve(name)).Inconclusive? && !IsSynthetic(name)
      requires '$' in name && !Contains(name, "$$")
      modifies this
      ensures Valid()
      ensures r == Classify(name, resolve)
      ensures name !in cache
      ensures forall n :: n in old(cache) ==> n in cache && cache[n] == old(cache)[n]
      ensures forall n :: n in cache && n !in old(cache) ==> |n| < |name|
      ensures forall n :: n in cache && n !in old(cache) ==> n in Ancestors(name, resolve)
      ensures |old(classified)| <= |classified| && classified[..|old(classified)|] == old(classified)
      decreases |name|, 0
    {
      var parent := EnclosingClass(name);
      // isExternalCode(enclosingClass), past its null check
      if parent in cache {
        r := cache[parent];
      } else {
        r := ClassifyAndStore(parent);
      }
      NestedFollowsEnclosing(name, resolve);
      assert Ancestors(name, resolve) == {name} + Ancestors(parent, resolve);
    }

    /** `isApplicationCode`. */
    method IsApplicationCode(className: Option<string>) returns (r: bool)
      requires Valid() && Classifies()
      modifies this
      ensures Valid()
      ensures r == (className.Some? && !classify(className.value))
      ensures forall name :: name in old(cache) ==> name in cache && cache[name] == old(cache)[name]
      ensures |old(classified)| <= |classified| && classified[..|old(classified)|] == old(classified)
    {
      var external := IsExternalCode(className);
      r := !external;
    }
  }
}
