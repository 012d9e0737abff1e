/**
 * The Moodle formatting functions the activity exports call. They are outside
 * the plugin, so the model takes them as inputs.
 */
module ExportFormat {
  /**
   * `number`: `round(x, 2)` as PHP writes a float; `date`: `userdate(t)`;
   * `duration`: `format_time(seconds)`.
   */
  datatype Formatters = Formatters(number: real -> string, date: int -> string, duration: int -> string)
}
