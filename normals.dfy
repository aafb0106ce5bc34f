/**
 * Normals: the 256-entry unit-normal codebook of the mesh codec
 * (`kU8ToNormalTable`), decoding a one-byte code and encoding a normal as
 * the code of the row with the largest dot product.
 *
 * Dot products are computed in single precision by the source; here they
 * are abstract reals: the encoder is given the dot product of the normal
 * being encoded with each row.
 */
module Normals {
  import opened Bytes

  /** A row of the codebook. */
  datatype Normal = Normal(x: real, y: real, z: real)

  /** `DecodeNormal(ncode)`: row ncode of the codebook `kU8ToNormalTable`. */
  function DecodeNormal(code: byte): Normal
  {
    match code
    case 0 => Normal(0.565061, -0.270644, -0.779396)
    case 1 => Normal(-0.309804, -0.731114, 0.607860)
    case 2 => Normal(-0.867412, 0.472957, 0.154619)
    case 3 => Normal(-0.757488, 0.498188, -0.421925)
    case 4 => Normal(0.306834, -0.915340, 0.260778)
    case 5 => Normal(0.098754, 0.639153, -0.762713)
    case 6 => Normal(0.713706, -0.558862, -0.422252)
    case 7 => Normal(-0.890431, -0.407603, -0.202466)
    case 8 => Normal(0.848050, -0.487612, -0.207475)
    case 9 => Normal(-0.232226, 0.776855, 0.585293)
    case 10 => Normal(-0.940195, 0.304490, -0.152706)
    case 11 => Normal(0.602019, -0.491878, -0.628991)
    case 12 => Normal(-0.096835, -0.494354, -0.863850)
    case 13 => Normal(0.026630, -0.323659, -0.945799)
    case 14 => Normal(0.019208, 0.909386, 0.415510)
    case 15 => Normal(0.854440, 0.491730, 0.167731)
    case 16 => Normal(-0.418835, 0.866521, -0.271512)
    case 17 => Normal(0.465024, 0.409667, 0.784809)
    case 18 => Normal(-0.674391, -0.691087, -0.259992)
    case 19 => Normal(0.303858, -0.869270, -0.389922)
    case 20 => Normal(0.991333, 0.090061, -0.095640)
    case 21 => Normal(-0.275924, -0.369550, 0.887298)
    case 22 => Normal(0.426545, -0.465962, 0.775202)
    case 23 => Normal(-0.482741, -0.873278, -0.065920)
    case 24 => Normal(0.063616, 0.932012, -0.356800)
    case 25 => Normal(0.624786, -0.061315, 0.778385)
    case 26 => Normal(-0.530300, 0.416850, 0.738253)
    case 27 => Normal(0.312144, -0.757028, -0.573999)
    case 28 => Normal(0.399288, -0.587091, -0.704197)
    case 29 => Normal(-0.132698, 0.482877, 0.865576)
    case 30 => Normal(0.950966, 0.306530, 0.041268)
    case 31 => Normal(-0.015923, -0.144300, 0.989406)
    case 32 => Normal(-0.407522, -0.854193, 0.322925)
    case 33 => Normal(-0.932398, 0.220464, 0.286408)
    case 34 => Normal(0.477509, 0.876580, 0.059936)
    case 35 => Normal(0.337133, 0.932606, -0.128796)
    case 36 => Normal(-0.638117, 0.199338, 0.743687)
    case 37 => Normal(-0.677454, 0.445349, 0.585423)
    case 38 => Normal(-0.446715, 0.889059, -0.100099)
    case 39 => Normal(-0.410024, 0.909168, 0.072759)
    case 40 => Normal(0.708462, 0.702103, -0.071641)
    case 41 => Normal(-0.048801, -0.903683, -0.425411)
    case 42 => Normal(-0.513681, -0.646901, 0.563606)
    case 43 => Normal(-0.080022, 0.000676, -0.996793)
    case 44 => Normal(0.066966, -0.991150, -0.114615)
    case 45 => Normal(-0.245220, 0.639318, -0.728793)
    case 46 => Normal(0.250978, 0.855979, 0.452006)
    case 47 => Normal(-0.123547, 0.982443, -0.139791)
    case 48 => Normal(-0.794825, 0.030254, -0.606084)
    case 49 => Normal(-0.772905, 0.547941, 0.319967)
    case 50 => Normal(0.916347, 0.369614, -0.153928)
    case 51 => Normal(-0.388203, 0.105395, 0.915527)
    case 52 => Normal(-0.700468, -0.709334, 0.078677)
    case 53 => Normal(-0.816193, 0.390455, 0.425880)
    case 54 => Normal(-0.043007, 0.769222, -0.637533)
    case 55 => Normal(0.911444, 0.113150, 0.395560)
    case 56 => Normal(0.845801, 0.156091, -0.510153)
    case 57 => Normal(0.829801, -0.029340, 0.557287)
    case 58 => Normal(0.259529, 0.416263, 0.871418)
    case 59 => Normal(0.231128, -0.845982, 0.480515)
    case 60 => Normal(-0.626203, -0.646168, 0.436277)
    case 61 => Normal(-0.197047, -0.065791, 0.978184)
    case 62 => Normal(-0.255692, -0.637488, -0.726794)
    case 63 => Normal(0.530662, -0.844385, -0.073567)
    case 64 => Normal(-0.779887, 0.617067, -0.104899)
    case 65 => Normal(0.739908, 0.113984, 0.662982)
    case 66 => Normal(-0.218801, 0.930194, -0.294729)
    case 67 => Normal(-0.374231, 0.818666, 0.435589)
    case 68 => Normal(-0.720250, -0.028285, 0.693137)
    case 69 => Normal(0.075389, 0.415049, 0.906670)
    case 70 => Normal(-0.539724, -0.106620, 0.835063)
    case 71 => Normal(-0.452612, -0.754669, -0.474991)
    case 72 => Normal(0.682822, 0.581234, -0.442629)
    case 73 => Normal(0.002435, -0.618462, -0.785811)
    case 74 => Normal(-0.397631, 0.110766, -0.910835)
    case 75 => Normal(0.133935, -0.985438, 0.104754)
    case 76 => Normal(0.759098, -0.608004, 0.232595)
    case 77 => Normal(-0.825239, -0.256087, 0.503388)
    case 78 => Normal(0.101693, -0.565568, 0.818408)
    case 79 => Normal(0.386377, 0.793546, -0.470104)
    case 80 => Normal(-0.520516, -0.840690, 0.149346)
    case 81 => Normal(-0.784549, -0.479672, 0.392935)
    case 82 => Normal(-0.325322, -0.927581, -0.183735)
    case 83 => Normal(-0.069294, -0.428541, 0.900861)
    case 84 => Normal(0.993354, -0.115023, -0.004288)
    case 85 => Normal(-0.123896, -0.700568, 0.702747)
    case 86 => Normal(-0.438031, -0.120880, -0.890795)
    case 87 => Normal(0.063314, 0.813233, 0.578484)
    case 88 => Normal(0.322045, 0.889086, -0.325289)
    case 89 => Normal(-0.133521, 0.875063, -0.465228)
    case 90 => Normal(0.637155, 0.564814, 0.524422)
    case 91 => Normal(0.260092, -0.669353, 0.695930)
    case 92 => Normal(0.953195, 0.040485, -0.299634)
    case 93 => Normal(-0.840665, -0.076509, 0.536124)
    case 94 => Normal(-0.971350, 0.202093, 0.125047)
    case 95 => Normal(-0.804307, -0.396312, -0.442749)
    case 96 => Normal(-0.936746, 0.069572, 0.343027)
    case 97 => Normal(0.426545, -0.465962, 0.775202)
    case 98 => Normal(0.794542, -0.227450, 0.563000)
    case 99 => Normal(-0.892172, 0.091169, -0.442399)
    case 100 => Normal(-0.312654, 0.541264, 0.780564)
    case 101 => Normal(0.590603, -0.735618, -0.331743)
    case 102 => Normal(-0.098040, -0.986713, 0.129558)
    case 103 => Normal(0.569646, 0.283078, -0.771603)
    case 104 => Normal(0.431051, -0.407385, -0.805129)
    case 105 => Normal(-0.162087, -0.938749, -0.304104)
    case 106 => Normal(0.241533, -0.359509, 0.901341)
    case 107 => Normal(-0.576191, 0.614939, 0.538380)
    case 108 => Normal(-0.025110, 0.085740, 0.996001)
    case 109 => Normal(-0.352693, -0.198168, 0.914515)
    case 110 => Normal(-0.604577, 0.700711, 0.378802)
    case 111 => Normal(0.465024, 0.409667, 0.784809)
    case 112 => Normal(-0.254684, -0.030474, -0.966544)
    case 113 => Normal(-0.604789, 0.791809, 0.085259)
    case 114 => Normal(-0.705147, -0.399298, 0.585943)
    case 115 => Normal(0.185691, 0.017236, -0.982457)
    case 116 => Normal(0.044588, 0.973094, 0.226052)
    case 117 => Normal(-0.405463, 0.642367, 0.650357)
    case 118 => Normal(-0.563959, 0.599136, -0.568319)
    case 119 => Normal(0.367162, -0.072253, -0.927347)
    case 120 => Normal(0.960429, -0.213570, -0.178783)
    case 121 => Normal(-0.192629, 0.906005, 0.376893)
    case 122 => Normal(-0.199718, -0.359865, -0.911378)
    case 123 => Normal(0.485072, 0.121233, -0.866030)
    case 124 => Normal(0.467163, -0.874294, 0.131792)
    case 125 => Normal(-0.638953, -0.716603, 0.279677)
    case 126 => Normal(-0.622710, 0.047813, -0.780990)
    case 127 => Normal(0.828724, -0.054433, -0.557004)
    case 128 => Normal(0.130241, 0.991080, 0.028245)
    case 129 => Normal(0.310995, -0.950076, -0.025242)
    case 130 => Normal(0.818118, 0.275336, 0.504850)
    case 131 => Normal(0.676328, 0.387023, 0.626733)
    case 132 => Normal(-0.100433, 0.495114, -0.863004)
    case 133 => Normal(-0.949609, -0.240681, -0.200786)
    case 134 => Normal(-0.102610, 0.261831, -0.959644)
    case 135 => Normal(-0.845732, -0.493136, 0.203850)
    case 136 => Normal(0.672617, -0.738838, 0.041290)
    case 137 => Normal(0.380465, 0.875938, 0.296613)
    case 138 => Normal(-0.811223, 0.262027, -0.522742)
    case 139 => Normal(-0.074423, -0.775670, -0.626736)
    case 140 => Normal(-0.286499, 0.755850, -0.588735)
    case 141 => Normal(0.291182, -0.276189, -0.915933)
    case 142 => Normal(-0.638117, 0.199338, 0.743687)
    case 143 => Normal(0.439922, -0.864433, -0.243359)
    case 144 => Normal(0.177649, 0.206919, 0.962094)
    case 145 => Normal(0.277107, 0.948521, 0.153361)
    case 146 => Normal(0.507629, 0.661918, -0.551523)
    case 147 => Normal(-0.503110, -0.579308, -0.641313)
    case 148 => Normal(0.600522, 0.736495, -0.311364)
    case 149 => Normal(-0.691096, -0.715301, -0.103592)
    case 150 => Normal(-0.041083, -0.858497, 0.511171)
    case 151 => Normal(0.207773, -0.480062, -0.852274)
    case 152 => Normal(0.795719, 0.464614, 0.388543)
    case 153 => Normal(-0.100433, 0.495114, -0.863004)
    case 154 => Normal(0.703249, 0.065157, -0.707951)
    case 155 => Normal(-0.324171, -0.941112, 0.096024)
    case 156 => Normal(-0.134933, -0.940212, 0.312722)
    case 157 => Normal(-0.438240, 0.752088, -0.492249)
    case 158 => Normal(0.964762, -0.198855, 0.172311)
    case 159 => Normal(-0.831799, 0.196807, 0.519015)
    case 160 => Normal(-0.508008, 0.819902, 0.263986)
    case 161 => Normal(0.471075, -0.001146, 0.882092)
    case 162 => Normal(0.919512, 0.246162, -0.306435)
    case 163 => Normal(-0.960050, 0.279828, -0.001187)
    case 164 => Normal(0.110232, -0.847535, -0.519165)
    case 165 => Normal(0.208229, 0.697360, 0.685806)
    case 166 => Normal(-0.199680, -0.560621, 0.803637)
    case 167 => Normal(0.170135, -0.679985, -0.713214)
    case 168 => Normal(0.758371, -0.494907, 0.424195)
    case 169 => Normal(0.077734, -0.755978, 0.649965)
    case 170 => Normal(0.612831, -0.672475, 0.414987)
    case 171 => Normal(0.142776, 0.836698, -0.528726)
    case 172 => Normal(-0.765185, 0.635778, 0.101382)
    case 173 => Normal(0.669873, -0.419737, 0.612447)
    case 174 => Normal(0.593549, 0.194879, 0.780847)
    case 175 => Normal(0.646930, 0.752173, 0.125368)
    case 176 => Normal(0.837721, 0.545266, -0.030127)
    case 177 => Normal(0.541505, 0.768070, 0.341820)
    case 178 => Normal(0.760679, -0.365715, -0.536301)
    case 179 => Normal(0.381516, 0.640377, 0.666605)
    case 180 => Normal(0.565794, -0.072415, -0.821361)
    case 181 => Normal(-0.466072, -0.401588, 0.788356)
    case 182 => Normal(0.987146, 0.096290, 0.127560)
    case 183 => Normal(0.509709, -0.688886, -0.515396)
    case 184 => Normal(-0.135132, -0.988046, -0.074192)
    case 185 => Normal(0.600499, 0.476471, -0.642166)
    case 186 => Normal(-0.732326, -0.275320, -0.622815)
    case 187 => Normal(-0.881141, -0.470404, 0.048078)
    case 188 => Normal(0.051548, 0.601042, 0.797553)
    case 189 => Normal(0.402027, -0.763183, 0.505891)
    case 190 => Normal(0.404233, -0.208288, 0.890624)
    case 191 => Normal(-0.311793, 0.343843, 0.885752)
    case 192 => Normal(0.098132, -0.937014, 0.335223)
    case 193 => Normal(0.537158, 0.830585, -0.146936)
    case 194 => Normal(0.725277, 0.298172, -0.620538)
    case 195 => Normal(-0.882025, 0.342976, -0.323110)
    case 196 => Normal(-0.668829, 0.424296, -0.610443)
    case 197 => Normal(-0.408835, -0.476442, -0.778368)
    case 198 => Normal(0.809472, 0.397249, -0.432375)
    case 199 => Normal(-0.909184, -0.205938, -0.361903)
    case 200 => Normal(0.866930, -0.347934, -0.356895)
    case 201 => Normal(0.911660, -0.141281, -0.385897)
    case 202 => Normal(-0.431404, -0.844074, -0.318480)
    case 203 => Normal(-0.950593, -0.073496, 0.301614)
    case 204 => Normal(-0.719716, 0.626915, -0.298305)
    case 205 => Normal(-0.779887, 0.617067, -0.104899)
    case 206 => Normal(-0.475899, -0.542630, 0.692151)
    case 207 => Normal(0.081952, -0.157248, -0.984153)
    case 208 => Normal(0.923990, -0.381662, -0.024025)
    case 209 => Normal(-0.957998, 0.120979, -0.260008)
    case 210 => Normal(0.306601, 0.227975, -0.924134)
    case 211 => Normal(-0.141244, 0.989182, 0.039601)
    case 212 => Normal(0.077097, 0.186288, -0.979466)
    case 213 => Normal(-0.630407, -0.259801, 0.731499)
    case 214 => Normal(0.718150, 0.637408, 0.279233)
    case 215 => Normal(0.340946, 0.110494, 0.933567)
    case 216 => Normal(-0.396671, 0.503020, -0.767869)
    case 217 => Normal(0.636943, -0.245005, 0.730942)
    case 218 => Normal(-0.849605, -0.518660, -0.095724)
    case 219 => Normal(-0.388203, 0.105395, 0.915527)
    case 220 => Normal(-0.280671, -0.776541, -0.564099)
    case 221 => Normal(-0.601680, 0.215451, -0.769131)
    case 222 => Normal(-0.660112, -0.632371, -0.405412)
    case 223 => Normal(0.921096, 0.284072, 0.266242)
    case 224 => Normal(0.074850, -0.300846, 0.950731)
    case 225 => Normal(0.943952, -0.067062, 0.323198)
    case 226 => Normal(-0.917838, -0.254589, 0.304561)
    case 227 => Normal(0.889843, -0.409008, 0.202219)
    case 228 => Normal(-0.565849, 0.753721, -0.334246)
    case 229 => Normal(0.791460, 0.555918, -0.254060)
    case 230 => Normal(0.261936, 0.703590, -0.660568)
    case 231 => Normal(-0.234406, 0.952084, 0.196444)
    case 232 => Normal(0.111205, 0.979492, -0.168014)
    case 233 => Normal(-0.869844, -0.109095, -0.481113)
    case 234 => Normal(-0.337728, -0.269701, -0.901777)
    case 235 => Normal(0.366793, 0.408875, -0.835634)
    case 236 => Normal(-0.098749, 0.261316, 0.960189)
    case 237 => Normal(-0.272379, -0.847100, 0.456324)
    case 238 => Normal(-0.319506, 0.287444, -0.902935)
    case 239 => Normal(0.873383, -0.294109, 0.388203)
    case 240 => Normal(-0.088950, 0.710450, 0.698104)
    case 241 => Normal(0.551238, -0.786552, 0.278340)
    case 242 => Normal(0.724436, -0.663575, -0.186712)
    case 243 => Normal(0.529741, -0.606539, 0.592861)
    case 244 => Normal(-0.949743, -0.282514, 0.134809)
    case 245 => Normal(0.155047, 0.419442, -0.894443)
    case 246 => Normal(-0.562653, -0.329139, -0.758346)
    case 247 => Normal(0.816407, -0.576953, 0.024576)
    case 248 => Normal(0.178550, -0.950242, -0.255266)
    case 249 => Normal(0.479571, 0.706691, 0.520192)
    case 250 => Normal(0.391687, 0.559884, -0.730145)
    case 251 => Normal(0.724872, -0.205570, -0.657496)
    case 252 => Normal(-0.663196, -0.517587, -0.540624)
    case 253 => Normal(-0.660054, -0.122486, -0.741165)
    case 254 => Normal(-0.531989, 0.374711, -0.759328)
    case _ => Normal(0.194979, -0.059120, 0.979024)
  }

  /** The initial best dot product of the encoder, `-10E30f`. */
  const Floor: real := -10000000000000000000000000000000.0

  /** Index best is what the scan over rows 0..n-1 keeps: the first row whose
      dot product is larger than every earlier one and than Floor, or 0 when
      there is none. */
  ghost predicate ScanResult(dots: seq<real>, n: nat, best: nat)
    requires n <= |dots|
  {
    (best == 0 && forall j :: 0 <= j < n ==> dots[j] <= Floor) ||
    (best < n && Floor < dots[best] &&
     (forall j :: 0 <= j < best ==> dots[j] < dots[best]) &&
     (forall j :: best < j < n ==> dots[j] <= dots[best]))
  }

  /** `EncodeNormal`: the first index of a maximal dot product, found with a
      strict comparison so that ties keep the earlier row. dots[i] is the dot
      product of the normal being encoded with row i (see `Dots`). */
  method EncodeNormal(dots: seq<real>) returns (code: byte)
    requires |dots| == 256
    ensures ScanResult(dots, 256, code)
    ensures code == Encoded(dots)
  {
    var bestIndex: nat := 0;
    var bestDot := Floor;
    var i := 0;
    while i < 256
      invariant 0 <= i <= 256 && bestIndex < 256
      invariant ScanResult(dots, i, bestIndex)
      invariant Kept(dots, i, bestIndex, bestDot)
      invariant (bestIndex, bestDot) == Scan(dots, i)
    {
      var d := dots[i];
      if d > bestDot {
        bestIndex := i;
        bestDot := d;
      }
      i := i + 1;
    }
    code := bestIndex;
  }

  /** The (index, dot product) the encoder's scan holds after rows 0..n-1. */
  function Scan(dots: seq<real>, n: nat): (r: (nat, real))
    requires n <= |dots|
    ensures r.0 < |dots| || (n == 0 && r.0 == 0)
  {
    if n == 0 then (0, Floor)
    else
      var (best, bestDot) := Scan(dots, n - 1);
      if dots[n - 1] > bestDot then (n - 1, dots[n - 1]) else (best, bestDot)
  }

  /** The code `EncodeNormal` returns for the dot products dots. */
  function Encoded(dots: seq<real>): (code: byte)
    requires |dots| == 256
  {
    Scan(dots, 256).0
  }

  /** The scan keeps the first strict maximum above Floor. */
  lemma {:induction false} ScanKeepsFirstMax(dots: seq<real>, n: nat)
    requires n <= |dots|
    ensures Scan(dots, n).0 < |dots| || n == 0
    ensures ScanResult(dots, n, Scan(dots, n).0)
    ensures n > 0 ==> Kept(dots, n, Scan(dots, n).0, Scan(dots, n).1)
  {
    if n > 0 {
      ScanKeepsFirstMax(dots, n - 1);
    }
  }

  /** At most one index is the first maximum: the encoding is determined by
      the dot products. */
  lemma ScanResultUnique(dots: seq<real>, n: nat, a: nat, b: nat)
    requires n <= |dots| && ScanResult(dots, n, a) && ScanResult(dots, n, b)
    ensures a == b
  {
  }

  // The rows that repeat an earlier row, each with its first occurrence.

  lemma Row97RepeatsRow22()
    ensures DecodeNormal(97) == DecodeNormal(22)
  {
  }

  lemma Row111RepeatsRow17()
    ensures DecodeNormal(111) == DecodeNormal(17)
  {
  }

  lemma Row142RepeatsRow36()
    ensures DecodeNormal(142) == DecodeNormal(36)
  {
  }

  lemma Row219RepeatsRow51()
    ensures DecodeNormal(219) == DecodeNormal(51)
  {
  }

  lemma Row205RepeatsRow64()
    ensures DecodeNormal(205) == DecodeNormal(64)
  {
  }

  lemma Row153RepeatsRow132()
    ensures DecodeNormal(153) == DecodeNormal(132)
  {
  }

  /** A repeated row has the same dot product as its first occurrence, and
      the strict comparison keeps the first: the later copies are never the
      code of any normal. */
  lemma LaterCopiesNeverChosen(dot: Normal -> real, code: byte)
    requires ScanResult(Dots(dot), 256, code)
    ensures code != 97 && code != 111 && code != 142 && code != 219 && code != 205 && code != 153
  {
    Row97RepeatsRow22();
    Row111RepeatsRow17();
    Row142RepeatsRow36();
    Row219RepeatsRow51();
    Row205RepeatsRow64();
    Row153RepeatsRow132();
    var dots := Dots(dot);
    assert dots[97] == dots[22] && dots[111] == dots[17] && dots[142] == dots[36];
    assert dots[219] == dots[51] && dots[205] == dots[64] && dots[153] == dots[132];
  }

  /** The exact dot product of two rows. */
  function RealDot(a: Normal, b: Normal): real
  {
    a.x * b.x + a.y * b.y + a.z * b.z
  }

  /** Decoding code 97 and encoding the result does not give 97 back. */
  lemma DecodeThenEncode97(code: byte)
    requires ScanResult(Dots(n => RealDot(DecodeNormal(97), n)), 256, code)
    ensures code != 97
  {
    LaterCopiesNeverChosen(n => RealDot(DecodeNormal(97), n), code);
  }

  /** The best dot product the scan over rows 0..n-1 holds: Floor until a
      row beats it, then the dot product of the kept row. */
  ghost predicate Kept(dots: seq<real>, n: nat, best: nat, bestDot: real)
    requires n <= |dots| && best < |dots|
  {
    ((forall j :: 0 <= j < n ==> dots[j] <= Floor) && bestDot == Floor) ||
    (best < n && bestDot == dots[best] && Floor < bestDot)
  }

  /** The dot products with every row, in row order. */
  function Dots(dot: Normal -> real): (dots: seq<real>)
    ensures |dots| == 256
    ensures forall j :: 0 <= j < 256 ==> dots[j] == dot(DecodeNormal(j))
  {
    seq(256, j requires 0 <= j < 256 => dot(DecodeNormal(j)))
  }
}
