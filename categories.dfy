/** The category classifier: a raw `Categories=` tag of a desktop
    entry is mapped to one of the eleven top-level menu buckets, after
    Appendix A (Registered Categories) of the freedesktop.org Desktop
    Menu Specification, extended with a few legacy tags. */
module Categories {
  import opened Wrappers

  datatype MainCategory =
    | AudioVideo | Development | Game | Graphics | Network | Office
    | Science | Settings | System | Utility | Other

  /** The ten buckets with a list of their own; `Other` is the fallback. */
  const MainTen: seq<MainCategory> :=
    [AudioVideo, Development, Game, Graphics, Network, Office, Science, Settings, System, Utility]

  /** The bucket's own tag, which is also its key in the translated
      category names. */
  function Name(m: MainCategory): string {
    match m
    case AudioVideo => "AudioVideo"
    case Development => "Development"
    case Game => "Game"
    case Graphics => "Graphics"
    case Network => "Network"
    case Office => "Office"
    case Science => "Science"
    case Settings => "Settings"
    case System => "System"
    case Utility => "Utility"
    case Other => "Other"
  }

  /** Tag `c` belongs to bucket `m`: it is the bucket's own name or one
      of the additional tags listed for it. */
  predicate InBucket(c: string, m: MainCategory) {
    match m
    case AudioVideo =>
      c == "AudioVideo" || c == "Audio" || c == "Video" || c == "Midi" || c == "Mixer"
      || c == "Sequencer" || c == "Tuner" || c == "TV" || c == "AudioVideoEditing"
      || c == "Player" || c == "Recorder" || c == "DiscBurning" || c == "Music"
      || c == "Sound & Video"
    case Development =>
      c == "Development" || c == "Building" || c == "Debugger" || c == "IDE"
      || c == "GUIDesigner" || c == "Profiling" || c == "RevisionControl"
      || c == "Translation" || c == "WebDevelopment" || c == "Programming"
    case Game =>
      c == "Game" || c == "ActionGame" || c == "AdventureGame" || c == "ArcadeGame"
      || c == "BoardGame" || c == "BlocksGame" || c == "CardGame" || c == "KidsGame"
      || c == "LogicGame" || c == "RolePlaying" || c == "Shooter" || c == "Simulation"
      || c == "SportsGame" || c == "StrategyGame" || c == "Emulator" || c == "Games"
    case Graphics =>
      c == "Graphics" || c == "2DGraphics" || c == "VectorGraphics"
      || c == "RasterGraphics" || c == "3DGraphics" || c == "Scanning" || c == "OCR"
      || c == "Photography"
    case Network =>
      c == "Network" || c == "Dialup" || c == "InstantMessaging" || c == "Chat"
      || c == "IRCClient" || c == "Feed" || c == "FileTransfer" || c == "HamRadio"
      || c == "News" || c == "P2P" || c == "RemoteAccess" || c == "Telephony"
      || c == "VideoConference" || c == "WebBrowser" || c == "Internet"
      || c == "Internet and Network"
    case Office =>
      c == "Office" || c == "Calendar" || c == "ContactManagement" || c == "Database"
      || c == "Dictionary" || c == "Chart" || c == "Email" || c == "Finance"
      || c == "FlowChart" || c == "PDA" || c == "ProjectManagement" || c == "Presentation"
      || c == "Spreadsheet" || c == "WordProcessor" || c == "Publishing" || c == "Viewer"
    case Science =>
      c == "Science" || c == "ArtificialIntelligence" || c == "Astronomy"
      || c == "Biology" || c == "Chemistry" || c == "Economy" || c == "Electricity"
      || c == "Geography" || c == "Geology" || c == "Geoscience" || c == "History"
      || c == "Humanities" || c == "MedicalSoftware" || c == "Physics" || c == "Robotics"
      || c == "Science & Math" || c == "Spirituality" || c == "Art" || c == "Construction"
      || c == "Languages" || c == "ComputerScience" || c == "DataVisualization"
      || c == "ImageProcessing" || c == "Literature" || c == "Math"
      || c == "NumericalAnalysis" || c == "Sports" || c == "ParallelComputing"
      || c == "Education"
    case Settings =>
      c == "Settings" || c == "Preferences" || c == "DesktopSettings"
      || c == "HardwareSettings" || c == "PackageManager" || c == "Security"
      || c == "Accessibility" || c == "Administration" || c == "Hardware"
      || c == "Look and Feel" || c == "Personal" || c == "Universal Access"
    case System =>
      c == "System" || c == "FileTools" || c == "FileManager" || c == "TerminalEmulator"
      || c == "Filesystem" || c == "Monitor" || c == "System Tools"
    case Utility =>
      c == "Utility" || c == "TextTools" || c == "TelephonyTools" || c == "Maps"
      || c == "Archiving" || c == "Compression" || c == "Calculator" || c == "Clock"
      || c == "TextEditor" || c == "Accessories"
    case Other =>
      c == "Other" || c == "Programs"
  }

  /** `additional_to_main`: the bucket of a tag, tried in the order of
      the buckets above, or `None` for a tag no bucket lists. Total:
      it never fails. */
  function AdditionalToMain(c: string): (r: Option<MainCategory>)
    ensures r.Some? ==> InBucket(c, r.value)
    ensures r.None? <==> forall m: MainCategory :: !InBucket(c, m)
  {
    if InBucket(c, AudioVideo) then Some(AudioVideo)
    else if InBucket(c, Development) then Some(Development)
    else if InBucket(c, Game) then Some(Game)
    else if InBucket(c, Graphics) then Some(Graphics)
    else if InBucket(c, Network) then Some(Network)
    else if InBucket(c, Office) then Some(Office)
    else if InBucket(c, Science) then Some(Science)
    else if InBucket(c, Settings) then Some(Settings)
    else if InBucket(c, System) then Some(System)
    else if InBucket(c, Utility) then Some(Utility)
    else if InBucket(c, Other) then Some(Other)
    else None
  }

  /** The classifier as the launcher stores it in a dictionary key: the
      bucket's name, or `None`. */
  function MainName(c: string): (r: Option<string>)
    ensures r.Some? <==> exists m: MainCategory :: InBucket(c, m)
    ensures r.Some? ==> exists m: MainCategory :: r.value == Name(m) && InBucket(c, m)
  {
    match AdditionalToMain(c)
    case Some(m) => Some(Name(m))
    case None => None
  }

  /** Every bucket name classifies as its own bucket. */
  lemma MainNamesMapToThemselves(m: MainCategory)
    ensures AdditionalToMain(Name(m)) == Some(m)
  {
    match m
    case AudioVideo => AudioVideoNameIsOwn();
    case Development => DevelopmentNameIsOwn();
    case Game => GameNameIsOwn();
    case Graphics => GraphicsNameIsOwn();
    case Network => NetworkNameIsOwn();
    case Office => OfficeNameIsOwn();
    case Science => ScienceNameIsOwn();
    case Settings => SettingsNameIsOwn();
    case System => SystemNameIsOwn();
    case Utility => UtilityNameIsOwn();
    case Other => OtherNameIsOwn();
  }

  lemma AudioVideoNameIsOwn()
    ensures AdditionalToMain("AudioVideo") == Some(AudioVideo)
  {
    assert InBucket("AudioVideo", AudioVideo);
  }


  lemma DevelopmentNameIsOwn()
    ensures AdditionalToMain("Development") == Some(Development)
  {
    DevelopmentNameIsOwnSkips();
    assert InBucket("Development", Development);
  }

  lemma DevelopmentNameIsOwnSkips()
    ensures !InBucket("Development", AudioVideo)
  {
  }

  lemma GameNameIsOwn()
    ensures AdditionalToMain("Game") == Some(Game)
  {
    GameNameIsOwnSkips();
    assert InBucket("Game", Game);
  }

  lemma GameNameIsOwnSkips()
    ensures !InBucket("Game", AudioVideo) && !InBucket("Game", Development)
  {
  }

  lemma GraphicsNameIsOwn()
    ensures AdditionalToMain("Graphics") == Some(Graphics)
  {
    GraphicsNameIsOwnSkips();
    assert InBucket("Graphics", Graphics);
  }

  lemma GraphicsNameIsOwnSkips()
    ensures !InBucket("Graphics", AudioVideo) && !InBucket("Graphics", Development) && !InBucket("Graphics", Game)
  {
  }

  lemma NetworkNameIsOwn()
    ensures AdditionalToMain("Network") == Some(Network)
  {
    NetworkNameIsOwnSkips1();
    NetworkNameIsOwnSkips2();
    assert InBucket("Network", Network);
  }

  lemma NetworkNameIsOwnSkips1()
    ensures !InBucket("Network", AudioVideo) && !InBucket("Network", Development) && !InBucket("Network", Game)
  {
  }

  lemma NetworkNameIsOwnSkips2()
    ensures !InBucket("Network", Graphics)
  {
  }

  lemma OfficeNameIsOwn()
    ensures AdditionalToMain("Office") == Some(Office)
  {
    OfficeNameIsOwnSkips1();
    OfficeNameIsOwnSkips2();
    assert InBucket("Office", Office);
  }

  lemma OfficeNameIsOwnSkips1()
    ensures !InBucket("Office", AudioVideo) && !InBucket("Office", Development) && !InBucket("Office", Game)
  {
  }

  lemma OfficeNameIsOwnSkips2()
    ensures !InBucket("Office", Graphics) && !InBucket("Office", Network)
  {
  }

  lemma ScienceNameIsOwn()
    ensures AdditionalToMain("Science") == Some(Science)
  {
    ScienceNameIsOwnSkips1();
    ScienceNameIsOwnSkips2();
    assert InBucket("Science", Science);
  }

  lemma ScienceNameIsOwnSkips1()
    ensures !InBucket("Science", AudioVideo) && !InBucket("Science", Development) && !InBucket("Science", Game)
  {
  }

  lemma ScienceNameIsOwnSkips2()
    ensures !InBucket("Science", Graphics) && !InBucket("Science", Network) && !InBucket("Science", Office)
  {
  }

  lemma SettingsNameIsOwn()
    ensures AdditionalToMain("Settings") == Some(Settings)
  {
    SettingsNameIsOwnSkips1();
    SettingsNameIsOwnSkips2();
    SettingsNameIsOwnSkips3();
    assert InBucket("Settings", Settings);
  }

  lemma SettingsNameIsOwnSkips1()
    ensures !InBucket("Settings", AudioVideo) && !InBucket("Settings", Development) && !InBucket("Settings", Game)
  {
  }

  lemma SettingsNameIsOwnSkips2()
    ensures !InBucket("Settings", Graphics) && !InBucket("Settings", Network) && !InBucket("Settings", Office)
  {
  }

  lemma SettingsNameIsOwnSkips3()
    ensures !InBucket("Settings", Science)
  {
  }

  lemma SystemNameIsOwn()
    ensures AdditionalToMain("System") == Some(System)
  {
    SystemNameIsOwnSkips1();
    SystemNameIsOwnSkips2();
    SystemNameIsOwnSkips3();
    assert InBucket("System", System);
  }

  lemma SystemNameIsOwnSkips1()
    ensures !InBucket("System", AudioVideo) && !InBucket("System", Development) && !InBucket("System", Game)
  {
  }

  lemma SystemNameIsOwnSkips2()
    ensures !InBucket("System", Graphics) && !InBucket("System", Network) && !InBucket("System", Office)
  {
  }

  lemma SystemNameIsOwnSkips3()
    ensures !InBucket("System", Science) && !InBucket("System", Settings)
  {
  }

  lemma UtilityNameIsOwn()
    ensures AdditionalToMain("Utility") == Some(Utility)
  {
    UtilityNameIsOwnSkips1();
    UtilityNameIsOwnSkips2();
    UtilityNameIsOwnSkips3();
    assert InBucket("Utility", Utility);
  }

  lemma UtilityNameIsOwnSkips1()
    ensures !InBucket("Utility", AudioVideo) && !InBucket("Utility", Development) && !InBucket("Utility", Game)
  {
  }

  lemma UtilityNameIsOwnSkips2()
    ensures !InBucket("Utility", Graphics) && !InBucket("Utility", Network) && !InBucket("Utility", Office)
  {
  }

  lemma UtilityNameIsOwnSkips3()
    ensures !InBucket("Utility", Science) && !InBucket("Utility", Settings) && !InBucket("Utility", System)
  {
  }

  lemma OtherNameIsOwn()
    ensures AdditionalToMain("Other") == Some(Other)
  {
    OtherNameIsOwnSkips1();
    OtherNameIsOwnSkips2();
    OtherNameIsOwnSkips3();
    OtherNameIsOwnSkips4();
    assert InBucket("Other", Other);
  }

  lemma OtherNameIsOwnSkips1()
    ensures !InBucket("Other", AudioVideo) && !InBucket("Other", Development) && !InBucket("Other", Game)
  {
  }

  lemma OtherNameIsOwnSkips2()
    ensures !InBucket("Other", Graphics) && !InBucket("Other", Network) && !InBucket("Other", Office)
  {
  }

  lemma OtherNameIsOwnSkips3()
    ensures !InBucket("Other", Science) && !InBucket("Other", Settings) && !InBucket("Other", System)
  {
  }

  lemma OtherNameIsOwnSkips4()
    ensures !InBucket("Other", Utility)
  {
  }

  /** `Education` is listed under `Science`, so the classifier never
      returns it and the source's separate test for it is dead. */
  lemma EducationIsScience()
    ensures AdditionalToMain("Education") == Some(Science)
  {
    EducationIsScienceSkips1();
    EducationIsScienceSkips2();
    assert InBucket("Education", Science);
  }

  lemma EducationIsScienceSkips1()
    ensures !InBucket("Education", AudioVideo) && !InBucket("Education", Development) && !InBucket("Education", Game)
  {
  }

  lemma EducationIsScienceSkips2()
    ensures !InBucket("Education", Graphics) && !InBucket("Education", Network) && !InBucket("Education", Office)
  {
  }

  /** A legacy tag listed only under `Other`. */
  lemma ProgramsIsOther()
    ensures AdditionalToMain("Programs") == Some(Other)
  {
    ProgramsIsOtherSkips1();
    ProgramsIsOtherSkips2();
    ProgramsIsOtherSkips3();
    ProgramsIsOtherSkips4();
    assert InBucket("Programs", Other);
  }

  lemma ProgramsIsOtherSkips1()
    ensures !InBucket("Programs", AudioVideo) && !InBucket("Programs", Development) && !InBucket("Programs", Game)
  {
  }

  lemma ProgramsIsOtherSkips2()
    ensures !InBucket("Programs", Graphics) && !InBucket("Programs", Network) && !InBucket("Programs", Office)
  {
  }

  lemma ProgramsIsOtherSkips3()
    ensures !InBucket("Programs", Science) && !InBucket("Programs", Settings) && !InBucket("Programs", System)
  {
  }

  lemma ProgramsIsOtherSkips4()
    ensures !InBucket("Programs", Utility)
  {
  }
}
