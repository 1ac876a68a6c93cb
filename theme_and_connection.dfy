/** The theme service, which writes colour and font-size resources into the running
    application's resource dictionary, and the connection service, which turns
    database probes into a signal strength and into change notifications. */
module ThemeAndConnection {
  import opened Runtime
  import opened Text

  /** A value stored in the application's resource dictionary. */
  datatype Resource = ColorResource(hex: string) | IntResource(value: int32)

  /** The six colours a theme sets, as ARGB hex strings. */
  datatype Palette = Palette(primary: string, secondary: string, background: string,
                             surface: string, text: string, secondaryText: string)

  const DarkPalette := Palette("#2196F3", "#FFC107", "#121212", "#1E1E1E", "#FFFFFF", "#CCCCCC")
  const LightPalette := Palette("#2196F3", "#FFC107", "#FFFFFF", "#F5F5F5", "#000000", "#666666")
  const BluePalette := Palette("#1976D2", "#42A5F5", "#E3F2FD", "#BBDEFB", "#0D47A1", "#1565C0")
  const GreenPalette := Palette("#388E3C", "#66BB6A", "#E8F5E8", "#C8E6C9", "#1B5E20", "#2E7D32")
  /** The fallback branch, written out on its own in the source. */
  const FallbackPalette := Palette("#2196F3", "#FFC107", "#FFFFFF", "#F5F5F5", "#000000", "#666666")

  const AvailableThemes: seq<string> := ["Default", "Dark", "Light", "Blue", "Green"]
  const ColorsDictionary := "Resources/Styles/Colors.xaml"
  const StylesDictionary := "Resources/Styles/Styles.xaml"
  const FallbackFontSize: int32 := 14

  /** The palette ApplyThemeColors picks: the lower-cased name selects dark, blue or
      green; every other name, "light" included, gets the light colours. */
  function PaletteFor(themeName: string): (p: Palette)
    ensures (p == DarkPalette) == (Lower(themeName) == "dark")
    ensures (p == BluePalette) == (Lower(themeName) == "blue")
    ensures (p == GreenPalette) == (Lower(themeName) == "green")
    ensures (p == LightPalette) == (Lower(themeName) != "dark" && Lower(themeName) != "blue"
                                    && Lower(themeName) != "green")
  {
    match Lower(themeName)
    case "dark" => DarkPalette
    case "light" => LightPalette
    case "blue" => BluePalette
    case "green" => GreenPalette
    case _ => FallbackPalette
  }

  /** The resources ApplyThemeColors writes. */
  function ColorResources(p: Palette): (r: map<string, Resource>)
    ensures r.Keys == {"PrimaryColor", "SecondaryColor", "BackgroundColor", "SurfaceColor",
                       "TextColor", "SecondaryTextColor"}
    ensures r["PrimaryColor"] == ColorResource(p.primary)
    ensures r["SecondaryColor"] == ColorResource(p.secondary)
    ensures r["BackgroundColor"] == ColorResource(p.background)
    ensures r["SurfaceColor"] == ColorResource(p.surface)
    ensures r["TextColor"] == ColorResource(p.text)
    ensures r["SecondaryTextColor"] == ColorResource(p.secondaryText)
  {
    map["PrimaryColor" := ColorResource(p.primary), "SecondaryColor" := ColorResource(p.secondary),
        "BackgroundColor" := ColorResource(p.background), "SurfaceColor" := ColorResource(p.surface),
        "TextColor" := ColorResource(p.text), "SecondaryTextColor" := ColorResource(p.secondaryText)]
  }

  /** Of the five themes offered, "Default" and "Light" look the same and the other
      three each have colours of their own. */
  lemma AvailableThemeLooks()
    ensures PaletteFor(AvailableThemes[0]) == PaletteFor(AvailableThemes[2]) == LightPalette
    ensures PaletteFor(AvailableThemes[1]) == DarkPalette
    ensures PaletteFor(AvailableThemes[3]) == BluePalette
    ensures PaletteFor(AvailableThemes[4]) == GreenPalette
  {
    assert Lower("Default") == "default";
    assert Lower("Dark") == "dark";
    assert Lower("Light") == "light";
    assert Lower("Blue") == "blue";
    assert Lower("Green") == "green";
  }

  /** The theme choice is blind to letter case. */
  lemma PaletteIgnoresCase(a: string, b: string)
    requires Lower(a) == Lower(b)
    ensures PaletteFor(a) == PaletteFor(b)
  {
  }

  class ThemeService {
    var currentTheme: string
    /** Whether Application.Current is set; fixed for the service's lifetime. */
    const appPresent: bool
    /** Whether a ResourceDictionary accepts a `Source` assigned from code. MAUI's
        setter refuses it with an InvalidOperationException ("Source can only be set
        from XAML"); the library is not part of this model, so both answers are kept. */
    const sourceAssignable: bool
    /** The application's own resource keys. */
    var resources: map<string, Resource>
    /** The sources of the merged dictionaries, in the order they were added. */
    var mergedSources: seq<string>

    constructor (appPresent: bool, sourceAssignable: bool, resources: map<string, Resource>,
                 mergedSources: seq<string>)
      ensures currentTheme == "Default" && this.appPresent == appPresent
      ensures this.sourceAssignable == sourceAssignable
      ensures this.resources == resources && this.mergedSources == mergedSources
    {
      currentTheme := "Default";
      this.appPresent := appPresent;
      this.sourceAssignable := sourceAssignable;
      this.resources := resources;
      this.mergedSources := mergedSources;
    }

    /** GetCurrentThemeAsync: the name recorded by the last ApplyTheme. */
    function GetCurrentTheme(): (r: string)
      reads this
      ensures r == currentTheme
    {
      currentTheme
    }

    function GetAvailableThemes(): (r: seq<string>)
      ensures r == ["Default", "Dark", "Light", "Blue", "Green"]
      ensures forall i, j :: 0 <= i < j < |r| ==> r[i] != r[j]
    {
      AvailableThemes
    }

    /** GetFontSizeAsync: the stored default size when there is one, 14 otherwise
        (also when the stored value is not an integer, whose cast would throw). */
    function GetFontSize(): (r: int32)
      reads this
      ensures appPresent && "DefaultFontSize" in resources && resources["DefaultFontSize"].IntResource?
              ==> r == resources["DefaultFontSize"].value
      ensures !(appPresent && "DefaultFontSize" in resources && resources["DefaultFontSize"].IntResource?)
              ==> r == FallbackFontSize
    {
      if appPresent && "DefaultFontSize" in resources && resources["DefaultFontSize"].IntResource?
      then resources["DefaultFontSize"].value
      else FallbackFontSize
    }

    /** ApplyThemeColors: writes the six colours of the chosen palette. */
    method ApplyThemeColors(themeName: string)
      modifies this`resources
      ensures resources == if appPresent then old(resources) + ColorResources(PaletteFor(themeName))
                           else old(resources)
    {
      if !appPresent {
        return;
      }
      resources := resources + ColorResources(PaletteFor(themeName));
    }

    /** ApplyThemeAsync: records the name; with an application, clears its own keys,
        adds the two style dictionaries and writes the palette. When the first
        dictionary refuses its `Source`, the exception is caught and logged, so the
        keys stay cleared and nothing is added. Either way clearing drops any font
        sizes set earlier, so GetFontSize falls back to 14 afterwards. */
    method ApplyTheme(themeName: string)
      modifies this`currentTheme, this`resources, this`mergedSources
      ensures GetCurrentTheme() == themeName
      ensures appPresent && sourceAssignable ==>
                resources == ColorResources(PaletteFor(themeName))
                && mergedSources == old(mergedSources) + [ColorsDictionary, StylesDictionary]
      ensures appPresent && !sourceAssignable ==>
                resources == map[] && mergedSources == old(mergedSources)
      ensures !appPresent ==> resources == old(resources) && mergedSources == old(mergedSources)
      ensures GetFontSize() == FallbackFontSize
    {
      currentTheme := themeName;
      if appPresent {
        resources := map[];
        if !sourceAssignable {
          return;
        }
        mergedSources := mergedSources + [ColorsDictionary];
        mergedSources := mergedSources + [StylesDictionary];
        ApplyThemeColors(themeName);
      }
    }

    /** SetFontSizeAsync: the default size and three sizes derived from it, with
        int32 wrap-around on the derived ones. */
    method SetFontSize(fontSize: int32)
      modifies this`resources
      ensures appPresent ==> resources == old(resources)["DefaultFontSize" := IntResource(fontSize)]
                                          ["SmallFontSize" := IntResource(Wrap32(fontSize - 2))]
                                          ["LargeFontSize" := IntResource(Wrap32(fontSize + 4))]
                                          ["HeaderFontSize" := IntResource(Wrap32(fontSize + 8))]
      ensures !appPresent ==> resources == old(resources)
      ensures appPresent ==> GetFontSize() == fontSize
    {
      if appPresent {
        resources := resources["DefaultFontSize" := IntResource(fontSize)];
        resources := resources["SmallFontSize" := IntResource(Wrap32(fontSize - 2))];
        resources := resources["LargeFontSize" := IntResource(Wrap32(fontSize + 4))];
        resources := resources["HeaderFontSize" := IntResource(Wrap32(fontSize + 8))];
      }
    }
  }

  /** TestConnectionAsync: the database's answer, false when the probe throws. */
  function TestConnectionResult(probe: Call<bool>): (r: bool)
    ensures r <==> probe == Returned(true)
  {
    match probe
    case Returned(ok) => ok
    case Threw(_) => false
  }

  /** The response-time buckets of GetConnectionStrengthAsync. */
  function SignalBars(elapsedMs: nat): (bars: nat)
    ensures bars <= 5
    ensures bars == 5 <==> elapsedMs < 100
    ensures bars == 4 <==> 100 <= elapsedMs < 300
    ensures bars == 3 <==> 300 <= elapsedMs < 800
    ensures bars == 2 <==> 800 <= elapsedMs < 2000
    ensures bars == 1 <==> 2000 <= elapsedMs < 5000
    ensures bars == 0 <==> elapsedMs >= 5000
  {
    if elapsedMs < 100 then 5
    else if elapsedMs < 300 then 4
    else if elapsedMs < 800 then 3
    else if elapsedMs < 2000 then 2
    else if elapsedMs < 5000 then 1
    else 0
  }

  /** A slower answer never shows more bars. */
  lemma SignalBarsMonotone(fast: nat, slow: nat)
    requires fast <= slow
    ensures SignalBars(slow) <= SignalBars(fast)
  {
  }

  /** GetConnectionStrengthAsync: `first` is the connectivity test, `timed` the second,
      timed probe and `elapsedMs` the stopwatch reading around it. */
  function ConnectionStrength(first: Call<bool>, timed: Call<bool>, elapsedMs: nat): (bars: nat)
    ensures bars <= 5
    ensures TestConnectionResult(first) && timed.Returned? ==> bars == SignalBars(elapsedMs)
    ensures !TestConnectionResult(first) || timed.Threw? ==> bars == 0
    ensures bars > 0 ==> TestConnectionResult(first) && timed.Returned? && elapsedMs < 5000
  {
    if !TestConnectionResult(first) then 0
    else if timed.Threw? then 0
    else SignalBars(elapsedMs)
  }

  /** Only the timing of the second probe matters: its answer is ignored, so a probe
      that reports no connection still shows bars. */
  lemma StrengthIgnoresTimedAnswer(first: Call<bool>, elapsedMs: nat)
    requires TestConnectionResult(first)
    ensures ConnectionStrength(first, Returned(false), elapsedMs) == SignalBars(elapsedMs)
  {
  }

  /** The ConnectionStatusChanged values one monitor tick raises. */
  function TickEvents(last: bool, isConnected: bool): (r: seq<bool>)
    ensures r == [] <==> isConnected == last
    ensures r != [] ==> r == [isConnected]
  {
    if isConnected != last then [isConnected] else []
  }

  /** The remembered state after monitor ticks that saw `observations`, starting
      from `last`. */
  function FinalState(last: bool, observations: seq<bool>): bool {
    if observations == [] then last else observations[|observations| - 1]
  }

  /** The ConnectionStatusChanged values raised by successive monitor ticks that saw
      `observations`, starting from the remembered state `last`: tick by tick, each
      from the state the earlier ticks left. */
  function StatusEvents(last: bool, observations: seq<bool>): seq<bool>
    decreases |observations|
  {
    if observations == [] then []
    else
      var earlier := observations[..|observations| - 1];
      StatusEvents(last, earlier) + TickEvents(FinalState(last, earlier), observations[|observations| - 1])
  }

  /** The test results a run of monitor ticks sees, one per probe answer. */
  function Observations(probes: seq<Call<bool>>): (r: seq<bool>)
    ensures |r| == |probes|
    ensures forall k :: 0 <= k < |probes| ==> r[k] == TestConnectionResult(probes[k])
  {
    seq(|probes|, k requires 0 <= k < |probes| => TestConnectionResult(probes[k]))
  }

  /** One more tick adds exactly that tick's events from the state reached so far. */
  lemma StatusEventsSnoc(last: bool, observations: seq<bool>, o: bool)
    ensures StatusEvents(last, observations + [o])
         == StatusEvents(last, observations) + TickEvents(FinalState(last, observations), o)
  {
    assert (observations + [o])[..|observations|] == observations;
  }

  /** The events of the first `k + 1` observations extend those of the first `k`. */
  lemma StatusEventsStep(last: bool, observations: seq<bool>, k: nat)
    requires k < |observations|
    ensures StatusEvents(last, observations[..k + 1])
         == StatusEvents(last, observations[..k]) + TickEvents(FinalState(last, observations[..k]), observations[k])
    ensures FinalState(last, observations[..k + 1]) == observations[k]
  {
    assert observations[..k + 1] == observations[..k] + [observations[k]];
    StatusEventsSnoc(last, observations[..k], observations[k]);
  }

  /** A subscriber that only listens ends up agreeing with the service: the last event
      raised is the final state, and without events the state never moved. */
  lemma {:induction false} StatusEventsEndInFinalState(last: bool, observations: seq<bool>)
    ensures var r := StatusEvents(last, observations);
      FinalState(last, observations) == if r == [] then last else r[|r| - 1]
    decreases |observations|
  {
    if observations != [] {
      var earlier := observations[..|observations| - 1];
      StatusEventsEndInFinalState(last, earlier);
    }
  }

  /** The events alternate, and the first one differs from the starting state. */
  lemma {:induction false} StatusEventsAlternate(last: bool, observations: seq<bool>)
    ensures var r := StatusEvents(last, observations);
      && (|r| > 0 ==> r[0] != last)
      && forall i :: 0 <= i < |r| - 1 ==> r[i] != r[i + 1]
    decreases |observations|
  {
    if observations != [] {
      var earlier := observations[..|observations| - 1];
      StatusEventsAlternate(last, earlier);
      StatusEventsEndInFinalState(last, earlier);
      var before := StatusEvents(last, earlier);
      var tick := TickEvents(FinalState(last, earlier), observations[|observations| - 1]);
      var r := before + tick;
      assert StatusEvents(last, observations) == r;
      if tick != [] && before != [] {
        assert r[|before| - 1] == before[|before| - 1] != r[|before|];
      }
      assert forall i :: 0 <= i < |before| ==> r[i] == before[i];
    }
  }

  class ConnectionService {
    var isMonitoring: bool
    /** Whether a monitoring timer exists. */
    var timerRunning: bool
    var lastConnectionState: bool
    /** The values passed to ConnectionStatusChanged so far, in order. */
    var raised: seq<bool>

    ghost predicate Valid()
      reads this
    {
      isMonitoring == timerRunning
    }

    constructor ()
      ensures !isMonitoring && !timerRunning && lastConnectionState && raised == []
      ensures Valid()
    {
      isMonitoring, timerRunning, lastConnectionState, raised := false, false, true, [];
    }

    /** StartMonitoringAsync: a second start is ignored. */
    method StartMonitoring()
      modifies this`isMonitoring, this`timerRunning
      ensures old(Valid()) ==> Valid()
      ensures isMonitoring
      ensures old(isMonitoring) ==> timerRunning == old(timerRunning)
      ensures !old(isMonitoring) ==> timerRunning
    {
      if isMonitoring {
        return;
      }
      isMonitoring := true;
      timerRunning := true;
    }

    /** StopMonitoringAsync: a second stop is ignored. */
    method StopMonitoring()
      modifies this`isMonitoring, this`timerRunning
      ensures old(Valid()) ==> Valid()
      ensures !isMonitoring
      ensures !old(isMonitoring) ==> timerRunning == old(timerRunning)
      ensures old(isMonitoring) ==> !timerRunning
    {
      if !isMonitoring {
        return;
      }
      isMonitoring := false;
      timerRunning := false;
    }

    /** MonitorConnection, the timer callback: raises the event only on a change. */
    method MonitorConnection(probe: Call<bool>)
      modifies this`lastConnectionState, this`raised
      ensures lastConnectionState == TestConnectionResult(probe)
      ensures raised == old(raised) + TickEvents(old(lastConnectionState), TestConnectionResult(probe))
    {
      var isConnected := TestConnectionResult(probe);
      if isConnected != lastConnectionState {
        lastConnectionState := isConnected;
        raised := raised + [isConnected];
      }
    }

    /** The running timer, one MonitorConnection call per probe answer: the values
        raised are StatusEvents over the test results, and the remembered state is the
        last result. A timer only ticks while it exists. */
    method RunTimer(probes: seq<Call<bool>>)
      requires timerRunning
      modifies this`lastConnectionState, this`raised
      ensures lastConnectionState == FinalState(old(lastConnectionState), Observations(probes))
      ensures raised == old(raised) + StatusEvents(old(lastConnectionState), Observations(probes))
    {
      ghost var start := lastConnectionState;
      ghost var obs := Observations(probes);
      var k := 0;
      while k < |probes|
        invariant 0 <= k <= |probes|
        invariant lastConnectionState == FinalState(start, obs[..k])
        invariant raised == old(raised) + StatusEvents(start, obs[..k])
      {
        StatusEventsStep(start, obs, k);
        ghost var before := raised;
        MonitorConnection(probes[k]);
        assert raised == before + TickEvents(FinalState(start, obs[..k]), obs[k]);
        k := k + 1;
      }
      assert obs[..k] == obs;
    }
  }
}
