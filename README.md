# quiz — a verified model of the quiz runner's core

The program `quiz/main.go` loads question/answer rows from a CSV file,
asks each question on standard output, reads one line of response per
question from standard input, and reports how many responses equal the
stored answers. This project models the part of it that is not I/O:

- **QuizItems** — the `QuizItem` record and `readCsv`'s loop, which turns
  already-parsed rows into items. The question is field 0 and the answer is
  field 1, copied verbatim. Nothing is answered yet and later fields are
  ignored. A row with fewer than two fields is an index out of range in
  the program (a panic). Here it is the error `ShortRow(row, fields)` for
  the first such row.
- **Newlines** — `prompt`'s `strings.Replace(text, "\n", "", -1)`, which
  removes every newline from the line that was read.
- **Prompts** — the prompt text `"%d.  What is %s ?  "` with the 1-based
  question number in decimal.
- **Answers** — the answer loop in `main`. It fills `Answered` in place, in
  question order, on an `array<QuizItem>` that stands for the slice.
  Standard input is a sequence of raw lines. Each line is what one
  `ReadString('\n')` returns. Once the lines run out, a read returns `""`,
  because the program ignores the read error.
- **Scoring** — `score`'s correct-answer count. It uses exact,
  case-sensitive string equality.
- **Exam** — one whole run: load, answer, count. It also has the worked
  scenarios.

Strings are modelled as sequences of characters. Go strings are bytes.
This makes no difference for removing `'\n'` or for comparing strings for
equality.

Facts about the code that a reader might not expect:

- Answers are not trimmed on load. The row `1+1, 2` stores the answer
  `" 2"`, so the response `2` is wrong (`Exam.ScenarioUntrimmedAnswer`).
- How many responses reach the questions depends on how input arrives.
  `prompt` makes a fresh buffered reader on every call (quiz/main.go:55).
  With rows `2+2,4` and `3+3,7`, the responses `4` and `7` typed one line
  at a time score two of two (`Exam.ScenarioTwoOfTwo`). Redirected in one
  block, `4\n7\n` is normally taken whole by the first reader, which returns only
  `4\n`. The second prompt then sees end of input, so the score is one of
  two (`Exam.ScenarioBlockInput`).
- There is no timer. The time limit is parsed and then discarded, so
  nothing can race and a session ends only after every question is asked.
- Unanswered questions are not automatically wrong. A question asked
  after the input is exhausted gets the empty response. That response is
  scored correct if the stored answer is empty
  (`Exam.UnansweredScoring`).

## Model

| member | source | states |
|---|---|---|
| QuizItems.ReadItems | quiz/main.go:42-51 | The conversion succeeds exactly when every row has at least two fields. It then gives one item per row, in row order, with question = field 0 and answer = field 1, untrimmed, and an empty response; later fields are ignored. Otherwise the error names the first short row and its field count. |
| QuizItems.LoadedFromUnique | quiz/main.go:44-49 | The rows determine the converted items completely. |
| Newlines.StripNewlines | quiz/main.go:58 | The result contains no '\n' and is no longer than the input. |
| Newlines.StripNewlinesAppend | quiz/main.go:58 | Stripping a concatenation is the concatenation of the stripped parts. Together with StripNewlinesChar this determines the result on every string, so the other characters keep their order. |
| Newlines.StripNewlinesChar | quiz/main.go:58 | On a single character, a newline disappears and any other character stays. |
| Newlines.StripNewlinesCounts | quiz/main.go:58 | Every character other than '\n' occurs as often in the result as in the input; '\n' occurs zero times. |
| Newlines.StripNewlinesNoNewline | quiz/main.go:58 | A string without newlines is returned unchanged. |
| Newlines.StripNewlinesIdempotent | quiz/main.go:58 | Stripping twice gives the same string as stripping once. |
| Prompts.DecimalString | quiz/main.go:86 | The `%d` rendering of a natural number is non-empty, all digits, and has no leading zero unless the number is 0. |
| Prompts.DecimalRoundTrip | quiz/main.go:86 | Reading the decimal rendering back gives the number. |
| Prompts.DecimalStringInjective | quiz/main.go:86 | Different numbers get different renderings. |
| Prompts.PromptTextParts | quiz/main.go:86 | The prompt for number n starts with n, followed by a non-digit, and ends with the question and " ?  ". |
| Answers.Response | quiz/main.go:54-59 | The response to the i-th prompt contains no newline. Once the input is exhausted it is empty. |
| Answers.ResponseOfLine | quiz/main.go:57-58 | On input shaped as successive line reads return it, the response is the line without its trailing '\n' (the last line may have none). |
| Answers.Answered | quiz/main.go:85-88 | After answering, the list has the same length and every question and answer is unchanged. The i-th response is in the i-th item. |
| Answers.AnswerAll | quiz/main.go:85-88 | The array, updated in place, equals Answered of its old contents. The prompts shown are the 1-based prompts of the old questions, in order. |
| Answers.PromptsNumbered | quiz/main.go:85-86 | The prompt shown for the question at index i carries the number i+1 and ends with that question. |
| Scoring.CorrectCount | quiz/main.go:63-68 | The count of correct items is at most the number of items. |
| Scoring.CorrectCountIsCardinality | quiz/main.go:63-68 | The count equals the number of positions whose answer equals the response exactly. |
| Scoring.AllCorrectIff | quiz/main.go:63-68 | The count equals the number of items exactly when every response matches its answer. |
| Scoring.NoneCorrectIff | quiz/main.go:63-68 | The count is 0 exactly when no response matches, so it is 0 for an empty exam. |
| Scoring.Score | quiz/main.go:62-68 | The loop's accumulator ends as the correct count of the exam's questions. |
| Exam.CorrectAfterAnswering | quiz/main.go:85-89 | After the answer loop, the count is the number of questions whose response read from the input equals the stored answer. |
| Exam.FullScoreIff | quiz/main.go:85-89 | Every question is scored correct exactly when every response read matches its answer. |
| Exam.UnansweredScoring | quiz/main.go:54-68 | A question asked after the input is exhausted is correct exactly when its stored answer is empty. |
| Exam.RunExam | quiz/main.go:82-90 | A run fails exactly when some row is short, and the error names the first short row and its field count. Otherwise total = number of rows, correct ≤ total, and correct = the number of rows whose field 1 equals the response read. Prompt i is the 1-based prompt for row i's field 0. |
| Exam.ScenarioTwoOfTwo | quiz/main.go:63-68 | Rows "2+2,4" and "3+3,7" answered "4" and "7", each read as its own line, score two correct. |
| Exam.ScenarioBlockInput | quiz/main.go:55-57 | The same rows with both responses arriving in one block: the second read sees end of input, so one of two is correct. |
| Exam.ScenarioUntrimmedAnswer | quiz/main.go:44-48 | Row "1+1, 2" answered "2" scores zero, because the answer keeps its leading space. |

## Left out

- Opening the file and CSV parsing (`os.Open`, `encoding/csv`). The model starts from the parsed rows. A parse or open error ends the program before any item exists.
- Reading standard input and printing. Input is a given sequence of lines, and the prompts are returned instead of printed. The banner and the final summary line are not modelled.
- The per-prompt `bufio.Reader` is not modelled. Each call to `prompt` creates a fresh reader, which may buffer more than one line and drop the rest when piped input arrives in one block. The model's input is the sequence of lines the reads actually return, one per prompt; `Exam.ScenarioBlockInput` writes the block case as that shorter sequence by hand.
- Answers.Response: accepts any sequence of strings as input, not only sequences shaped as line reads return them. That shape is `Answers.WellFormedInput`; `Answers.ResponseOfLine` holds under it, and `Exam.RunExam` does not require it.
- Scoring.Score: returns only the correct count of `score`, not the percentage. The percentage is `float64` division and `math.Round`, and an empty exam gives 0/0 = NaN.
- Command-line flags, and the time limit, which is parsed and discarded. No timer exists in the code, so there is no race to model.
- `Exam.Score` is set to 100 and never read. The model's Exam is reduced to its question list.
