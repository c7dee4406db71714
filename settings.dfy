/** The user preferences the core reads, with their default values. Volume,
    audio device, starting character and system-tray settings belong to the
    parts of the program outside this model. */
module Settings {

  datatype Preferences = Preferences(
    moveSpeed: int,
    emoteKeyEnabled: bool,
    emoteKey: string,
    idleMinutes: int,
    sleepMinutes: int)

  const DefaultPreferences: Preferences := Preferences(5, true, "P", 5, 5)

  /** Emote timings: the trigger window in minutes and the emote's length in
      milliseconds. */
  datatype EmotePreferences = EmotePreferences(
    minEmoteTriggerMinutes: int,
    maxEmoteTriggerMinutes: int,
    emoteDuration: int)

  const DefaultEmotePreferences: EmotePreferences := EmotePreferences(5, 15, 3600)

  /** Sizes of the right-click hotspots. */
  datatype HotspotSettings = HotspotSettings(
    topHotspotHeight: int,
    topHotspotWidth: int,
    sideHotspotHeight: int,
    sideHotspotWidth: int)

  const DefaultHotspotSettings: HotspotSettings := HotspotSettings(0, 0, 0, 0)
}
