/** What defaulting guarantees: the meaning of every component afterwards, convergence in one
    step, and what it leaves alone. */
module DefaultingTheorems {
  import opened Names
  import opened Components
  import opened Defaulting

  /** The flag a component has after defaulting, said without the algorithm. */
  predicate ExpectedEnabled(cs: ComponentList, p: Platform, n: Component) {
    if IsPreview(n) then false
    else if n == ConsoleMCE then
      p != OCP(false) && (if Present(cs, n) then Enabled(cs, n) else p == OCP(true))
    else
      || (if Present(cs, n) then Enabled(cs, n) else IsOn(n))
      || (PreviewOf(n).Some? && Enabled(cs, PreviewOf(n).value))
  }

  predicate ExpectedPresent(cs: ComponentList, p: Platform, n: Component) {
    !IsPreview(n) && (Present(cs, n) || IsOn(n) || IsOff(n) || (n == ConsoleMCE && p == OCP(true)))
  }

  lemma FilledMeaning(cs: ComponentList, n: Component)
    ensures Present(Filled(cs), n) <==> Present(cs, n) || IsOn(n) || IsOff(n)
    ensures Enabled(Filled(cs), n) <==> if Present(cs, n) then Enabled(cs, n) else IsOn(n)
  {
    var on := Fill(cs, ON_COMPONENTS, true);
    FillMeaning(cs, ON_COMPONENTS, true, n);
    FillMeaning(on, OFF_COMPONENTS, false, n);
    OnListed(n);
    OffListed(n);
  }

  lemma PromotedIff(cs: ComponentList, n: Component)
    ensures Promoted(cs, PREVIEW_COMPONENTS, PREVIEW_TO_STABLE, n) <==>
            PreviewOf(n).Some? && Enabled(cs, PreviewOf(n).value)
  {
    PreviewsHaveStables(n);
    if PreviewOf(n).Some? {
      PreviewsHaveStables(PreviewOf(n).value);
      PreviewListed(PreviewOf(n).value);
    }
    forall p | p in PREVIEW_TO_STABLE ensures PreviewOf(PREVIEW_TO_STABLE[p]) == Some(p) { PreviewsHaveStables(p); }
  }

  lemma MigratedMeaning(cs: ComponentList, n: Component)
    ensures Enabled(Migrated(cs), n) <==>
            !IsPreview(n) && (Enabled(cs, n) || (PreviewOf(n).Some? && Enabled(cs, PreviewOf(n).value)))
    ensures Present(Migrated(cs), n) <==>
            !IsPreview(n) && (Present(cs, n) || (PreviewOf(n).Some? && Enabled(cs, PreviewOf(n).value)))
  {
    StableNamesHold();
    MigrateMeaning(cs, PREVIEW_COMPONENTS, PREVIEW_TO_STABLE, n);
    PromotedIff(cs, n);
    PreviewListed(n);
  }

  lemma KindsAreApart(n: Component)
    ensures IsPreview(n) ==> !IsOn(n) && !IsOff(n) && n != ConsoleMCE && PreviewOf(n).None?
    ensures PreviewOf(n).Some? ==> IsPreview(PreviewOf(n).value) && (IsOn(n) || IsOff(n)) && n != ConsoleMCE
    ensures !IsOn(ConsoleMCE) && !IsOff(ConsoleMCE) && !(IsOn(n) && IsOff(n))
  {}

  lemma SettleConsoleMeaning(cs: ComponentList, p: Platform, n: Component)
    ensures Present(SettleConsole(cs, p), n) <==> Present(cs, n) || (n == ConsoleMCE && p == OCP(true))
    ensures Enabled(SettleConsole(cs, p), n) <==>
            if n != ConsoleMCE then Enabled(cs, n)
            else p != OCP(false) && (Enabled(cs, n) || (p == OCP(true) && !Present(cs, n)))
  {
    ToggledMeaning(cs, ConsoleMCE, true, n);
    ToggledMeaning(cs, ConsoleMCE, false, n);
    EnabledOnlyIfPresent(cs, n);
    EnabledOnlyIfPresent(cs, ConsoleMCE);
  }

  lemma BeforeConsoleMeaning(cs: ComponentList, n: Component)
    ensures Present(Migrated(Filled(cs)), n) <==> !IsPreview(n) && (Present(cs, n) || IsOn(n) || IsOff(n))
    ensures Enabled(Migrated(Filled(cs)), n) <==>
            !IsPreview(n) && ((if Present(cs, n) then Enabled(cs, n) else IsOn(n))
                              || (PreviewOf(n).Some? && Enabled(cs, PreviewOf(n).value)))
  {
    KindsAreApart(n);
    FilledMeaning(cs, n);
    MigratedMeaning(Filled(cs), n);
    if PreviewOf(n).Some? {
      KindsAreApart(PreviewOf(n).value);
      FilledMeaning(cs, PreviewOf(n).value);
      EnabledOnlyIfPresent(cs, PreviewOf(n).value);
    }
  }

  /** Defaulting decides presence and flag of every component as expected. */
  lemma DefaultedMeaning(cs: ComponentList, p: Platform, n: Component)
    ensures Present(Defaulted(cs, p), n) <==> ExpectedPresent(cs, p, n)
    ensures Enabled(Defaulted(cs, p), n) <==> ExpectedEnabled(cs, p, n)
  {
    KindsAreApart(n);
    BeforeConsoleMeaning(cs, n);
    SettleConsoleMeaning(Migrated(Filled(cs)), p, n);
  }

  lemma EnabledOnlyIfPresent(cs: ComponentList, n: Component)
    ensures Enabled(cs, n) ==> Present(cs, n)
  {
    if Enabled(cs, n) { EnabledIsPresent(cs, n); }
  }

  // ------------------------------------------------------------------ convergence

  /** Nothing left for defaulting to do. */
  ghost predicate Settled(cs: ComponentList, p: Platform) {
    && (forall n :: IsOn(n) || IsOff(n) ==> Present(cs, n))
    && (forall n :: IsPreview(n) ==> !Present(cs, n))
    && (p == OCP(true) ==> Present(cs, ConsoleMCE))
    && (p == OCP(false) ==> !Enabled(cs, ConsoleMCE))
  }

  lemma DefaultedIsSettled(cs: ComponentList, p: Platform)
    ensures Settled(Defaulted(cs, p), p)
  {
    var ds := Defaulted(cs, p);
    forall n ensures IsOn(n) || IsOff(n) ==> Present(ds, n) { KindsAreApart(n); DefaultedMeaning(cs, p, n); }
    forall n ensures IsPreview(n) ==> !Present(ds, n) { DefaultedMeaning(cs, p, n); }
    DefaultedMeaning(cs, p, ConsoleMCE);
  }

  lemma SettledIsFixed(cs: ComponentList, p: Platform)
    requires Settled(cs, p)
    ensures Filled(cs) == cs && Migrated(cs) == cs && Defaulted(cs, p) == cs
  {
    forall n <- ON_COMPONENTS ensures Present(cs, n) { OnListed(n); }
    forall n <- OFF_COMPONENTS ensures Present(cs, n) { OffListed(n); }
    FillSettled(cs, ON_COMPONENTS, true);
    FillSettled(cs, OFF_COMPONENTS, false);
    forall n <- PREVIEW_COMPONENTS ensures !Present(cs, n) { PreviewListed(n); }
    MigrateSettled(cs, PREVIEW_COMPONENTS, PREVIEW_TO_STABLE);
  }

  /** Defaulting is idempotent, and it changes nothing exactly when everything is settled. */
  lemma DefaultingConverges(cs: ComponentList, p: Platform)
    ensures Defaulted(Defaulted(cs, p), p) == Defaulted(cs, p)
    ensures Defaulted(cs, p) == cs <==> Settled(cs, p)
  {
    DefaultedIsSettled(cs, p);
    SettledIsFixed(Defaulted(cs, p), p);
    if Settled(cs, p) { SettledIsFixed(cs, p); }
  }

  // ------------------------------------------------------------------------ frame

  /** Names whose flag defaulting may change. */
  function Free(cs: ComponentList, p: Platform): set<Component> {
    (set q | q in PREVIEW_TO_STABLE && Enabled(cs, q) :: PREVIEW_TO_STABLE[q]) +
    (if p == OCP(false) then {ConsoleMCE} else {})
  }

  lemma FilledFrame(cs: ComponentList, free: set<Component>)
    ensures Extends(cs, Filled(cs), free)
    ensures Unique(cs) ==> Unique(Filled(cs))
  {
    ExtendsSelf(cs, free);
    FillFrame(cs, cs, ON_COMPONENTS, true, free);
    FillFrame(cs, Fill(cs, ON_COMPONENTS, true), OFF_COMPONENTS, false, free);
  }

  lemma MigratedFrame(cs: ComponentList, free: set<Component>)
    requires forall q | q in PREVIEW_TO_STABLE && Enabled(cs, q) :: PREVIEW_TO_STABLE[q] in free
    ensures Extends(WithoutAll(cs, PREVIEW_COMPONENTS), Migrated(Filled(cs)), free)
    ensures Unique(cs) ==> Unique(Migrated(Filled(cs)))
  {
    FilledFrame(cs, free);
    StableNamesHold();
    forall q <- PREVIEW_COMPONENTS ensures q in PREVIEW_TO_STABLE && Enabled(Filled(cs), q) ==> PREVIEW_TO_STABLE[q] in free {
      PreviewListed(q);
      KindsAreApart(q);
      FilledMeaning(cs, q);
      EnabledOnlyIfPresent(Filled(cs), q);
    }
    MigrateFrame(cs, Filled(cs), PREVIEW_COMPONENTS, PREVIEW_TO_STABLE, free);
  }

  lemma ConsoleFrame(before: ComponentList, cs: ComponentList, p: Platform, free: set<Component>)
    requires Extends(before, cs, free) && (p == OCP(false) ==> ConsoleMCE in free)
    ensures Extends(before, SettleConsole(cs, p), free)
    ensures Unique(cs) ==> Unique(SettleConsole(cs, p))
  {
    if p.OCP? {
      if p == OCP(false) || !Present(cs, ConsoleMCE) { ExtendsToggled(before, cs, ConsoleMCE, p.plugins, free); }
      if Unique(cs) { ToggledUnique(cs, ConsoleMCE, p.plugins); }
    }
  }

  /** The non-preview entries stay, in order, with their overrides; a flag only changes for the
      stable counterpart of an enabled preview and for the console on old clusters; entries
      that are added carry no overrides; and unique names stay unique. */
  lemma DefaultingFrame(cs: ComponentList, p: Platform)
    ensures Extends(WithoutAll(cs, PREVIEW_COMPONENTS), Defaulted(cs, p), Free(cs, p))
    ensures Unique(cs) ==> Unique(Defaulted(cs, p))
  {
    MigratedFrame(cs, Free(cs, p));
    ConsoleFrame(WithoutAll(cs, PREVIEW_COMPONENTS), Migrated(Filled(cs)), p, Free(cs, p));
  }

  // ------------------------------------------------------------------ enabled entries

  lemma FilledAnyOn(cs: ComponentList, n: Component)
    requires !IsOn(n)
    ensures AnyOn(Filled(cs), n) <==> AnyOn(cs, n)
  {
    OnListed(n);
    FillAnyOn(cs, ON_COMPONENTS, true, n);
    FillAnyOn(Fill(cs, ON_COMPONENTS, true), OFF_COMPONENTS, false, n);
  }

  lemma MigratedAnyOn(cs: ComponentList, n: Component)
    requires !IsPreview(n) && PreviewOf(n).None?
    ensures AnyOn(Migrated(cs), n) <==> AnyOn(cs, n)
  {
    PreviewListed(n);
    forall q <- PREVIEW_TO_STABLE ensures PREVIEW_TO_STABLE[q] != n { PreviewsHaveStables(q); }
    MigrateAnyOn(cs, PREVIEW_COMPONENTS, PREVIEW_TO_STABLE, n);
  }

  lemma ConsoleAnyOn(cs: ComponentList, p: Platform, n: Component)
    requires n != ConsoleMCE
    ensures AnyOn(SettleConsole(cs, p), n) <==> AnyOn(cs, n)
  {
    ToggledAnyOn(cs, ConsoleMCE, true, n);
    ToggledAnyOn(cs, ConsoleMCE, false, n);
  }

  /** A component that is neither on by default nor involved in a preview keeps, entry by entry,
      whether it is on somewhere in the list. */
  lemma DefaultedAnyOn(cs: ComponentList, p: Platform, n: Component)
    requires !IsOn(n) && !IsPreview(n) && PreviewOf(n).None? && n != ConsoleMCE
    ensures AnyOn(Defaulted(cs, p), n) <==> AnyOn(cs, n)
  {
    FilledAnyOn(cs, n);
    MigratedAnyOn(Filled(cs), n);
    ConsoleAnyOn(Migrated(Filled(cs)), p, n);
  }
}
