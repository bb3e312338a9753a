/**
 * The naming helpers callers use to place their services under `core`:
 * `internalService`, `guiService` and `featuresService`, all built on the
 * private `coreService`.
 */
module ServiceNames {
  import opened ServicePaths

  /** `coreService(name)`: the name under the `core` namespace. */
  function CoreService(name: string): (r: string)
    ensures Split(r) == ["core"] + Split(name)
  {
    assert "core." + name == "core" + "." + name;
    SplitConcat("core", name);
    SplitDotFree("core");
    "core." + name
  }

  /** `internalService(name)`: `core.internal.<name>`, whose segments are `core`, `internal`, then those of the name. */
  function InternalService(name: string): (r: string)
    ensures Split(r) == ["core", "internal"] + Split(name)
  {
    assert '.' !in "internal";
    assert "internal." + name == "internal" + "." + name;
    GroupSegments("internal", name);
    CoreService("internal." + name)
  }

  /** `guiService(name)`: `core.gui.<name>`, whose segments are `core`, `gui`, then those of the name. */
  function GuiService(name: string): (r: string)
    ensures Split(r) == ["core", "gui"] + Split(name)
  {
    assert '.' !in "gui";
    assert "gui." + name == "gui" + "." + name;
    GroupSegments("gui", name);
    CoreService("gui." + name)
  }

  /** `featuresService(name)`: `core.features.<name>`, whose segments are `core`, `features`, then those of the name. */
  function FeaturesService(name: string): (r: string)
    ensures Split(r) == ["core", "features"] + Split(name)
  {
    assert '.' !in "features";
    assert "features." + name == "features" + "." + name;
    GroupSegments("features", name);
    CoreService("features." + name)
  }

  /** A name under `core.<group>` has `core` and the group as its first two segments. */
  lemma {:induction false} GroupSegments(group: string, name: string)
    requires '.' !in group
    ensures Split(CoreService(group + "." + name)) == ["core", group] + Split(name)
    ensures RelativePath(CoreService(group + "." + name)) == ["core", group] + RelativePath(name)
  {
    SplitConcat(group, name);
    SplitDotFree(group);
    var r := CoreService(group + "." + name);
    assert Split(r) == ["core"] + ([group] + Split(name));
    FileNamePrefix(["core", group], Split(name));
  }

  /** `internalService(n)` is `core.internal.<n>`, stored under `core/internal/` below the root. */
  lemma InternalServicePath(name: string)
    ensures InternalService(name) == "core.internal." + name
    ensures RelativePath(InternalService(name)) == ["core", "internal"] + RelativePath(name)
  {
  }

  /** `guiService(n)` is `core.gui.<n>`, stored under `core/gui/` below the root. */
  lemma GuiServicePath(name: string)
    ensures GuiService(name) == "core.gui." + name
    ensures RelativePath(GuiService(name)) == ["core", "gui"] + RelativePath(name)
  {
  }

  /** `featuresService(n)` is `core.features.<n>`, stored under `core/features/` below the root. */
  lemma FeaturesServicePath(name: string)
    ensures FeaturesService(name) == "core.features." + name
    ensures RelativePath(FeaturesService(name)) == ["core", "features"] + RelativePath(name)
  {
  }

  /** The three helpers place their services in disjoint namespaces, so they never collide. */
  lemma HelpersDisjoint(a: string, b: string)
    ensures InternalService(a) != GuiService(b)
    ensures InternalService(a) != FeaturesService(b)
    ensures GuiService(a) != FeaturesService(b)
  {
    InternalServicePath(a);
    GuiServicePath(a);
    GuiServicePath(b);
    FeaturesServicePath(b);
    assert Split(InternalService(a))[1] == "internal" != "features" == Split(FeaturesService(b))[1];
  }
}
