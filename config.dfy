/** The settings the pipeline reads (their defaults; loading them is not modelled). */
module Config {
  /** The names of the fields `Settings` declares. */
  const SettingNames: set<string> := {
    "PROJECT_NAME", "API_V1_STR", "REEL_WIDTH", "REEL_HEIGHT", "YOUTUBE_WIDTH", "YOUTUBE_HEIGHT",
    "FPS", "VIDEO_CODEC", "AUDIO_CODEC", "VIDEO_BITRATE", "AUDIO_BITRATE",
    "ARABIC_FONT_COLOR", "ENGLISH_FONT_COLOR", "FONT_SIZE",
    "BASE_DIR", "FONTS_DIR", "TEMP_DIR", "LOGS_DIR", "ARABIC_FONT", "ENGLISH_FONT"}

  const ReelWidth: nat := 1080
  const ReelHeight: nat := 1920
  const YouTubeWidth: nat := 1920
  const YouTubeHeight: nat := 1080

  const FontSize: nat := 70
  /** `int(FONT_SIZE * 0.75)`, the English caption size. */
  const EnglishFontSize: nat := FontSize * 75 / 100
  const ArabicFontColor: string := "#FFFFFF"
  const EnglishFontColor: string := "#CCCCCC"

  /** File names of the two fonts; the deployment decides the directory. */
  const ArabicFont: string := "fonts/Amiri-Regular.ttf"
  const EnglishFont: string := "fonts/arial.ttf"
}
